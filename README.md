# Daily consolidation of merchant transactions, in Dafny

This project models the core of a two-service cash-flow system.

The **transactions service** records a merchant's credit or debit:
- The `Amount` value object refuses a non-positive value.
- The `Transaction` entity raises one `TransactionCreatedEvent` when created.
- `CreateTransactionUseCase` persists the transaction, clears its events and publishes each one.

The **consolidated service** folds those events into daily balances:
- A queue consumer (`SqsMessageConsumer`) polls for messages. It passes each one through a circuit breaker (`SimpleCircuitBreaker`) to `ProcessMessageAsync`.
- `ProcessMessageAsync` runs `ProcessTransactionEventUseCase`. The use case fetches or creates the `DailyBalance` of the pair (merchant, day of the transaction), credits or debits it, and saves it through `DailyBalanceRepository`.
- `DailyBalancesController` answers balance queries through `GetDailyBalanceUseCase` and `GetDailyBalanceRangeUseCase`.

Stateful parts are classes whose methods update fields in place:
- the breaker;
- the daily balance;
- the repository's table and staged changes;
- the consumer;
- the transaction's event list.

Each such method is proved against a pure function of the old state:
- `Resilience.Step` for the breaker;
- `Balances.WithCredit`/`WithDebit` for the balance;
- `ProcessTransactionEvent.Processed` for the use case (its properties are `ProcessTransactionEvent.ProcessedEffect`);
- `Consumer.Handle`/`Batch`/`RunAll` for the consumer;
- `CreateTransaction.Orchestrated` for the transactions use case.

Lemmas about those functions state what the code promises.

Representation choices:
- `decimal` is `real`, which is exact.
- A `DateTime` is a count of 100 ns ticks, and a `DateOnly` is a day number. The day of a timestamp is `ticks / TicksPerDay`.
- A `Guid` is a `nat`, and 0 stands for `Guid.Empty`.
- The transaction type is its `int` code: Credit is 0 and Debit is 1. Any other code can arrive from the queue.
- The clock, new ids, JSON decoding and the queue client are parameters. The transactions repository's `AddAsync` and `SaveChangesAsync` and the publisher's `PublishAsync` are each given as an outcome: no exception, or the one the call throws.

Main results:
- The breaker keeps the invariant "Open implies at least `threshold` failures and a recorded failure time". Consecutive failures open it exactly at the threshold (`Resilience.ConsecutiveFailuresOpen`).
- After any sequence of events, each (merchant, day) balance is its starting totals plus the credits and debits of the events on that key, and `NetBalance == TotalCredits - TotalDebits` holds (`ProcessTransactionEvent.ProcessedAllTotals`).
- From a freshly built consumer, the whole poll loop leaves the balances equal to the fold of exactly the events whose tag matches, whose body decodes and whose use case succeeds (`Consumer.RunFromInitial`). Between messages the saved rows equal the tracked ones, so these are the balances the queries read from the database (`Consumer.SqsMessageConsumer.Run`).
  - It deletes exactly those whose delete also succeeds.
  - The breaker never leaves its initial closed state, because `ProcessMessageAsync` catches every exception, so the breaker never sees a failure.
- Processing is at least once. A message whose delete fails is counted again on redelivery (`Consumer.RedeliveryCountsTwice`).

## Model

| member | source | states |
|---|---|---|
| Resilience.CircuitBreaker.constructor | consolidated-service/src/ConsolidatedService.Infrastructure/Resilience/SimpleCircuitBreaker.cs:7-22 | A new breaker keeps the given threshold and duration and starts Closed, with count 0 and no last-failure time. |
| Resilience.Step | consolidated-service/src/ConsolidatedService.Infrastructure/Resilience/SimpleCircuitBreaker.cs:24-74 | One call preserves the breaker invariant. The work runs exactly when the breaker is not Open inside its cooldown. |
| Resilience.CircuitBreaker.Execute | consolidated-service/src/ConsolidatedService.Infrastructure/Resilience/SimpleCircuitBreaker.cs:24-74 | Updating the three fields in place gives the state, the result and the invocation that `Step` specifies. The invariant is kept. |
| Resilience.RejectedWhileOpen | consolidated-service/src/ConsolidatedService.Infrastructure/Resilience/SimpleCircuitBreaker.cs:26-37 | While Open with `now - lastFailure <= duration`, the call throws "Circuit breaker is open" and does not run the work. State, count and time are unchanged. The comparison is strict, so exactly the duration is still rejected. |
| Resilience.ProbeAfterCooldown | consolidated-service/src/ConsolidatedService.Infrastructure/Resilience/SimpleCircuitBreaker.cs:26-49 | Past the cooldown an Open breaker runs the work. A success closes it with count 0 and returns the value. A failure is rethrown, counted on top of the failures that opened it, and stamped `now`. |
| Resilience.SuccessResets | consolidated-service/src/ConsolidatedService.Infrastructure/Resilience/SimpleCircuitBreaker.cs:42-55 | A completed call returns the work's value unchanged and ends Closed with count 0. The last-failure time is kept. |
| Resilience.FailureCounts | consolidated-service/src/ConsolidatedService.Infrastructure/Resilience/SimpleCircuitBreaker.cs:57-72 | A failed call adds exactly one to the count, records `now` and rethrows the same exception. It ends Open iff the new count reaches the threshold; otherwise it keeps the state it ran in. |
| Resilience.FailedProbeReopens | consolidated-service/src/ConsolidatedService.Infrastructure/Resilience/SimpleCircuitBreaker.cs:31-64 | The count is not reset on entering HalfOpen, so a failed probe re-opens at once with a fresh failure time. |
| Resilience.Replay | consolidated-service/src/ConsolidatedService.Infrastructure/Resilience/SimpleCircuitBreaker.cs:10-74 | Any sequence of calls preserves the invariant that Open implies a recorded failure time and a count of at least the threshold. |
| Resilience.ConsecutiveFailuresOpen | consolidated-service/src/ConsolidatedService.Infrastructure/Resilience/SimpleCircuitBreaker.cs:57-64 | From a breaker that is not Open, consecutive failures only count up below the threshold. They open it once the count reaches the threshold, and it stays open. |
| Resilience.CompletedCallsKeepClosed | consolidated-service/src/ConsolidatedService.Infrastructure/Resilience/SimpleCircuitBreaker.cs:42-55 | A Closed breaker with count 0 is left exactly as it is by any sequence of completed calls. |
| Resilience.ReturningTrue | consolidated-service/src/ConsolidatedService.Infrastructure/Resilience/SimpleCircuitBreaker.cs:76-83 | The non-generic overload wraps the work as work returning `true`. It completes iff the work does, and it throws the work's own exception. |
| Resilience.CircuitBreaker.ExecuteVoid | consolidated-service/src/ConsolidatedService.Infrastructure/Resilience/SimpleCircuitBreaker.cs:76-83 | Same state effect and invocation as the generic call on the work returning `true`. Success and exception are as that call's. |
| Balances.Created | consolidated-service/src/ConsolidatedService.Domain/Entities/DailyBalance.cs:18-47 | A created balance has the given identity and totals, net = credits − debits, and creation time = last-update time = `now`. |
| Balances.DailyBalance.Create | consolidated-service/src/ConsolidatedService.Domain/Entities/DailyBalance.cs:18-47 | The constructed entity's fields are `Created(...)`, with both totals defaulting to 0, and the entity invariant holds. |
| Balances.WithCredit | consolidated-service/src/ConsolidatedService.Domain/Entities/DailyBalance.cs:49-53 | Credits rise by the amount and debits are unchanged. Net rises by the amount when it was consistent. Identity is unchanged and the update time is `now`. |
| Balances.WithDebit | consolidated-service/src/ConsolidatedService.Domain/Entities/DailyBalance.cs:55-59 | Debits rise by the amount and credits are unchanged. Net falls by the amount when it was consistent. Identity is unchanged and the update time is `now`. |
| Balances.Recalculated | consolidated-service/src/ConsolidatedService.Domain/Entities/DailyBalance.cs:61-65 | Re-derives net = credits − debits and stamps `now`. Totals and identity are unchanged. |
| Balances.DailyBalance.AddCredit | consolidated-service/src/ConsolidatedService.Domain/Entities/DailyBalance.cs:49-53 | The entity after the in-place update is `WithCredit` of its old fields, and the invariant holds. |
| Balances.DailyBalance.AddDebit | consolidated-service/src/ConsolidatedService.Domain/Entities/DailyBalance.cs:55-59 | The entity after the in-place update is `WithDebit` of its old fields, and the invariant holds. |
| Balances.DailyBalance.RecalculateBalance | consolidated-service/src/ConsolidatedService.Domain/Entities/DailyBalance.cs:61-65 | The entity after the update is `Recalculated` of its old fields, so the invariant holds. Private in the source; in the model only `AddCredit` and `AddDebit` call it. |
| Balances.Applied | consolidated-service/src/ConsolidatedService.Application/UseCases/ProcessTransactionEventUseCase.cs:33-40 | A Credit entry adds its amount to the credits and leaves the debits; every other type code adds to the debits and leaves the credits. The result is consistent, keeps the identity and is stamped with the entry's time. |
| Balances.AppliedAllTotals | consolidated-service/src/ConsolidatedService.Domain/Entities/DailyBalance.cs:49-65 | After any sequence of entries, the totals are the starting totals plus the credit and debit sums. The identity is untouched, and the balance is consistent once any entry has been applied. |
| Balances.SwapKeepsTotals | consolidated-service/src/ConsolidatedService.Domain/Entities/DailyBalance.cs:49-65 | Swapping two neighbouring entries leaves both totals and the net balance unchanged. |
| Balances.AmountsAreNotChecked | consolidated-service/src/ConsolidatedService.Domain/Entities/DailyBalance.cs:49-59 | Totals never fall under non-negative amounts. Nothing rejects a negative one: a negative credit lowers the credits and a negative debit raises the net. |
| Balances.CreditThenDebit | consolidated-service/src/ConsolidatedService.Tests.Unit/Domain/DailyBalanceTests.cs:52-61 | A fresh balance credited 200 and debited 50 has credits 200, debits 50 and net 150. |
| Balances.CentsExample | consolidated-service/src/ConsolidatedService.Tests.Unit/Domain/DailyBalanceTests.cs:26-50 | Crediting 100.50 and then debiting 50.25 gives exactly 100.50, 50.25 and net 50.25; decimals are exact. |
| Repositories.Lookup | consolidated-service/src/ConsolidatedService.Infrastructure/Repositories/DailyBalanceRepository.cs:17-24 | The result is a stored row with the merchant and the date. When nothing is found, no stored row matches both. |
| Repositories.Range | consolidated-service/src/ConsolidatedService.Infrastructure/Repositories/DailyBalanceRepository.cs:26-32 | Every result is a stored row of the merchant within both inclusive bounds. Dates strictly ascend, and every stored row that matches is included. |
| Repositories.EmptyRange | consolidated-service/src/ConsolidatedService.Infrastructure/Repositories/DailyBalanceRepository.cs:29 | A range whose start is after its end is empty. |
| Repositories.Committed | consolidated-service/src/ConsolidatedService.Infrastructure/Repositories/DailyBalanceRepository.cs:46-49 | Committing keeps every row under its own key. Every row after the commit was stored before or is a staged entity. |
| Repositories.CommittedHoldsStaged | consolidated-service/src/ConsolidatedService.Infrastructure/Repositories/DailyBalanceRepository.cs:46-49 | The commit writes every staged change: each staged key is present, the last change staged for a key is the entity stored there, and untouched keys keep their rows. |
| Repositories.AddedVisibleAfterSave | consolidated-service/src/ConsolidatedService.Infrastructure/Repositories/DailyBalanceRepository.cs:34-49 | An entity added under a free key can be committed, and the save places it under its key. |
| Repositories.DailyBalanceRepository.constructor | consolidated-service/src/ConsolidatedService.Infrastructure/Repositories/DailyBalanceRepository.cs:10-15 | A new repository has an empty table, nothing staged, an empty saved snapshot and no saves yet. |
| Repositories.DailyBalanceRepository.GetByMerchantAndDate | consolidated-service/src/ConsolidatedService.Infrastructure/Repositories/DailyBalanceRepository.cs:17-24 | Returns null iff no row has the key. Otherwise it returns the tracked entity itself, whose fields are what `Lookup` finds. |
| Repositories.DailyBalanceRepository.Add | consolidated-service/src/ConsolidatedService.Infrastructure/Repositories/DailyBalanceRepository.cs:34-38 | Returns the same entity and stages one insert. The table is unchanged until the save. |
| Repositories.DailyBalanceRepository.Update | consolidated-service/src/ConsolidatedService.Infrastructure/Repositories/DailyBalanceRepository.cs:40-44 | Stages one update. The table is unchanged until the save. |
| Repositories.DailyBalanceRepository.SaveChanges | consolidated-service/src/ConsolidatedService.Infrastructure/Repositories/DailyBalanceRepository.cs:46-49 | Each call counts as one save. It commits all staged changes or none. It fails, keeping everything, iff an insert would break the unique (merchant, date) index or an update finds no row. On success the saved snapshot becomes the tracked rows, in-place changes included. |
| ProcessTransactionEvent.ProcessedEffect | consolidated-service/src/ConsolidatedService.Application/UseCases/ProcessTransactionEventUseCase.cs:16-43 | Only the key (merchant, day of the transaction) changes; it is added if it was missing. An existing row keeps its identity, and a new one gets the new id. The amount goes to credits for Credit and to debits otherwise. The result is consistent and stamped `now`. |
| ProcessTransactionEvent.Execute | consolidated-service/src/ConsolidatedService.Application/UseCases/ProcessTransactionEventUseCase.cs:16-43 | Fetch-or-create, credit or debit, then exactly one save. The tracked rows become `Processed` of the old rows, and the saved snapshot equals them, so the change is written even when the row existed. An existing entity is mutated in place with the table unchanged; a missing one is added as exactly one fresh entity. |
| ProcessTransactionEvent.ProcessedAllTotals | consolidated-service/src/ConsolidatedService.Application/UseCases/ProcessTransactionEventUseCase.cs:23-42 | After any sequence of events, every key's totals are its starting totals (0 for a new key) plus the amounts of the events on that key. The index and consistency are kept, and every event's key is present. |
| ProcessTransactionEvent.ProcessedAllAppend | consolidated-service/src/ConsolidatedService.Application/UseCases/ProcessTransactionEventUseCase.cs:16-43 | Processing two runs of events one after the other is processing their concatenation. |
| ProcessTransactionEvent.ProcessedTwiceCountsTwice | consolidated-service/src/ConsolidatedService.Application/UseCases/ProcessTransactionEventUseCase.cs:16-42 | There is no transaction-id check, so the same event processed twice adds its amount twice. |
| Queries.ToResponse | consolidated-service/src/ConsolidatedService.Application/UseCases/GetDailyBalanceUseCase.cs:27-36 | The response carries the entity's id, merchant, date, three totals and last-update time. |
| Queries.GetDailyBalance | consolidated-service/src/ConsolidatedService.Application/UseCases/GetDailyBalanceUseCase.cs:15-37 | Null iff no stored row has the merchant and date. Otherwise the result projects such a row and its net equals credits − debits. |
| Queries.GetDailyBalanceRange | consolidated-service/src/ConsolidatedService.Application/UseCases/GetDailyBalanceRangeUseCase.cs:15-33 | Same length and order as the range query, with each element projecting the corresponding row. |
| Queries.RangeResponse | consolidated-service/src/ConsolidatedService.Application/UseCases/GetDailyBalanceRangeUseCase.cs:21-32 | Every element is the merchant's and within both bounds. Dates strictly ascend, every matching row is answered, and each net equals credits − debits. |
| Queries.SingleDayRange | consolidated-service/src/ConsolidatedService.Application/UseCases/GetDailyBalanceRangeUseCase.cs:21-32 | A range with equal bounds answers exactly the point query of that day. |
| Controller.GetDailyBalance | consolidated-service/src/ConsolidatedService.Api/Controllers/DailyBalancesController.cs:26-91 | 400 iff the parameters fail a check, 500 iff they pass and the store throws, and 404 iff a valid point query finds nothing. A 200 carries the point or range result of the parsed dates. |
| Controller.MerchantCheckedFirst | consolidated-service/src/ConsolidatedService.Api/Controllers/DailyBalancesController.cs:35-38 | An empty merchant id gives 400 "merchantId is required", whatever the other parameters. |
| Controller.DateTakesPrecedence | consolidated-service/src/ConsolidatedService.Api/Controllers/DailyBalancesController.cs:40-58 | With a non-empty `date`, the answer does not depend on `startDate` or `endDate`. |
| Controller.BadRequestMessages | consolidated-service/src/ConsolidatedService.Api/Controllers/DailyBalancesController.cs:40-84 | The 400 message for an unparsable date, start or end, a start after the end, or missing dates, in the order checked. |
| Controller.SameDayRangeAccepted | consolidated-service/src/ConsolidatedService.Api/Controllers/DailyBalancesController.cs:72-81 | `start == end` is accepted and answered with that day's range. |
| Consumer.InvocationOf | consolidated-service/src/ConsolidatedService.Infrastructure/Messaging/SqsMessageConsumer.cs:115-120 | The use case gets the decoded merchant, amount and date unchanged, and the type code without a range check. |
| Consumer.Handle | consolidated-service/src/ConsolidatedService.Infrastructure/Messaging/SqsMessageConsumer.cs:86-143 | A message is deleted iff its tag is exactly "TransactionCreatedEvent", its body decodes, the use case returns and the delete succeeds. Without a tag or a decoded body the store is untouched. |
| Consumer.SqsMessageConsumer.ProcessMessage | consolidated-service/src/ConsolidatedService.Infrastructure/Messaging/SqsMessageConsumer.cs:86-143 | The store's tracked rows and its saved rows are both those `Handle` specifies, and so are the deletes. Nothing escapes the call. |
| Consumer.SqsMessageConsumer.constructor | consolidated-service/src/ConsolidatedService.Infrastructure/Messaging/SqsMessageConsumer.cs:23-38 | The consumer owns a fresh breaker with threshold 5 and a 30-second break, in its initial state, over a store with nothing staged and nothing unsaved. |
| Consumer.SqsMessageConsumer.HandleBatch | consolidated-service/src/ConsolidatedService.Infrastructure/Messaging/SqsMessageConsumer.cs:58-75 | Each message goes through the breaker in receipt order; a rejection is caught and the loop moves on. The new state is `Batch` of the old one, and the saved rows are its rows. |
| Consumer.SqsMessageConsumer.Run | consolidated-service/src/ConsolidatedService.Infrastructure/Messaging/SqsMessageConsumer.cs:40-84 | The poll loop runs until cancellation, and a failed receive pauses and polls again. The new state is `RunAll` of the old one, and the saved rows are its rows. The store's rows stay keyed by (merchant, date) and consistent, as the queries require. |
| Consumer.BreakerSeesNoFailure | consolidated-service/src/ConsolidatedService.Infrastructure/Messaging/SqsMessageConsumer.cs:62-74 | The wrapped work never throws, so the breaker can only raise the open-circuit exception. A run closes it with count 0, and a fresh breaker stays fresh. |
| Consumer.BatchFromInitial | consolidated-service/src/ConsolidatedService.Infrastructure/Messaging/SqsMessageConsumer.cs:60-126 | From a fresh breaker, a batch folds exactly the events that apply, in order, and deletes exactly those whose delete succeeds. The breaker does not move. |
| Consumer.RunFromInitial | consolidated-service/src/ConsolidatedService.Infrastructure/Messaging/SqsMessageConsumer.cs:40-126 | The whole loop folds every applied event of every poll and deletes in order. It pauses once per failed receive, and the breaker never opens. |
| Consumer.RedeliveryCountsTwice | consolidated-service/src/ConsolidatedService.Infrastructure/Messaging/SqsMessageConsumer.cs:115-126 | A processed message whose delete fails is not deleted, and its redelivery adds the amount a second time. |
| Amounts.Create | transactions-service/src/TransactionsService.Domain/ValueObjects/Amount.cs:12-20 | Succeeds iff the value is > 0 and then wraps it unchanged. Otherwise it throws ArgumentException "Amount must be greater than zero.". |
| Amounts.ToDecimal | transactions-service/src/TransactionsService.Domain/ValueObjects/Amount.cs:35 | The implicit conversion gives a positive decimal. |
| Amounts.Equals | transactions-service/src/TransactionsService.Domain/ValueObjects/Amount.cs:22-28 | False against null or a non-Amount. Otherwise true iff the two decimal values are equal. |
| Amounts.CreateInvertsToDecimal | transactions-service/src/TransactionsService.Domain/ValueObjects/Amount.cs:12-35 | Creating from an amount's decimal gives back the same amount. |
| Amounts.EqualsIsValueEquality | transactions-service/src/TransactionsService.Domain/ValueObjects/Amount.cs:22-28 | `Equals` is reflexive, symmetric and transitive, and holds iff the two amounts are the same value. |
| Amounts.CreatedAmountsCompare | transactions-service/src/TransactionsService.Tests.Unit/Domain/AmountTests.cs:45-61 | Amounts created from two decimals are equal iff the decimals are. |
| Transactions.CreatedEvent | transactions-service/src/TransactionsService.Domain/Events/TransactionCreatedEvent.cs:14-27 | The event carries the transaction's id, merchant, type, amount as a decimal, and date. |
| Transactions.Transaction.constructor | transactions-service/src/TransactionsService.Domain/Entities/Transaction.cs:18-33 | The fields are as given, the creation time is `now`, and the event list is empty. |
| Transactions.Transaction.Create | transactions-service/src/TransactionsService.Domain/Entities/Transaction.cs:35-58 | Fails with the amount's exception, and produces no transaction, iff the amount is ≤ 0. Otherwise the new entity has the given fields and exactly one `TransactionCreatedEvent` with its own id and fields. |
| Transactions.Transaction.AddEvent | transactions-service/src/TransactionsService.Domain/Entities/Transaction.cs:63-66 | Appends at the end and leaves earlier events unchanged. |
| Transactions.Transaction.ClearEvents | transactions-service/src/TransactionsService.Domain/Entities/Transaction.cs:68-71 | Leaves the event list empty. |
| CreateTransaction.PublishFrom | transactions-service/src/TransactionsService.Application/UseCases/CreateTransactionUseCase.cs:39-42 | Publishes the events in list order, each once. Every publish before the last one made succeeded. A reported exception is the last publish's, and no exception reported means every publish from `i` on succeeded. |
| CreateTransaction.InvalidAmountCallsNothing | transactions-service/src/TransactionsService.Application/UseCases/CreateTransactionUseCase.cs:26-33 | An invalid amount throws the amount's exception before any repository or publisher call. |
| CreateTransaction.PersistBeforePublish | transactions-service/src/TransactionsService.Application/UseCases/CreateTransactionUseCase.cs:33-42 | The transaction is added first, and a failed add stops there. Otherwise it is saved once, before every publish, and a failed save stops there. A success means every call succeeded. |
| CreateTransaction.SuccessPublishesOnce | transactions-service/src/TransactionsService.Application/UseCases/CreateTransactionUseCase.cs:33-53 | When every call succeeds, the trace is add, save and exactly one publish of the created event. The response repeats the request's fields, the new id and the creation time. |
| CreateTransaction.PublishFailurePropagates | transactions-service/src/TransactionsService.Application/UseCases/CreateTransactionUseCase.cs:34-42 | A throwing publish reaches the caller after the transaction was saved; nothing catches it. |
| CreateTransaction.Execute | transactions-service/src/TransactionsService.Application/UseCases/CreateTransactionUseCase.cs:22-54 | Response and call trace are those `Orchestrated` specifies, for every add, save and publish outcome. No transaction exists iff the amount is refused. The entity's event list is empty once the events are taken, and still holds its created event when the add or the save threw. |

## Left out

- Asynchrony, `CancellationToken` propagation, logging and `Task.Delay`. The 5000 ms pause after a failed receive is counted in `delays`, not waited.
- Cancellation is the end of the `polls` input. It is observed only between polls, as in the loop's condition.
- `DateTime.UtcNow`, `Guid.NewGuid` and JSON deserialization are inputs: `now`, `newId`, and the `Decoded` value of a message body.
- The queue client is left out beyond its effects. A receive is an input `Poll`, and a delete that succeeds appends the receipt handle to `deleted`. Visibility timeouts, the 20-second long poll and the 10-message batch limit are not modelled.
- The event publisher and the transactions repository are seen only as a call trace. Each call's outcome (`AddAsync`, `SaveChangesAsync`, `PublishAsync`) is a parameter: success, or the exception it throws. `SqsEventPublisher`, its own circuit breaker and `TransactionRepository` are not part of this model.
- `TransactionType` is an `int` code with Credit = 0 and Debit = 1. Its enum file is not part of this model.
- C# `decimal` range and overflow are not modelled, because `real` is unbounded. The `numeric(18,2)` rounding of the database is not modelled either.
- Resilience.CircuitBreaker.Execute: the source reads the clock twice, at the gate and when recording a failure; the model uses one `now` for both. The `int` failure counter is unbounded, so its wrap-around after 2^31 failures is not modelled.
- Balances.DailyBalance.Create: the source reads the clock separately for `CreatedAt` and `LastUpdatedAt`. The model gives both the same `now`.
- Transactions.Transaction.Create: `CreatedAt` and the event's `OccurredAt` come from separate clock reads in the source. The model uses one `now`.
- Balances.DailyBalance.RecalculateBalance: private in the source. Dafny has no private members, so the model cannot stop other callers; only `AddCredit` and `AddDebit` call it.
- Consumer.SqsMessageConsumer.HandleBatch: the breaker's bookkeeping and the processing of the message are modelled one after the other. They touch disjoint state, so the order does not matter.
- Consumer.Handle: a use case that throws is modelled as leaving the balances as they were. In the source the failed scope's unsaved changes are discarded with it. A failed receive before a batch is modelled; an exception escaping the per-message catch is impossible, because the wrapped work never throws (`Consumer.BreakerSeesNoFailure`).
- Repositories.DailyBalanceRepository: entity change tracking is by reference. A tracked entity mutated in place is visible in `Rows()` before `SaveChanges`. The database's content is the ghost `saved` snapshot that each successful `SaveChanges` takes. Each scope's context is the one store. Concurrent consumers racing on the same row are not modelled.
- `UpdateAsync` is modelled, but `ProcessTransactionEventUseCase` does not call it; it relies on change tracking, as the source does.
- `Program.cs` wiring, migrations, `ApplicationDbContext` (beyond the unique (merchant, date) index, which is the table's key), the health check, `TransactionsController` and `Amount.GetHashCode` are not part of this model.
