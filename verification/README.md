# Padma: a verified model of its protocols

Padma watches a Fiber payment node. An indexer turns the node's raw changes into event rows, read
models and webhook deliveries in one transaction per change; a dispatcher sends the deliveries; a
query API pages through the read models; a merchant backend sells, refunds and accounts against
them. All four share one set of Postgres tables. This project models those tables and the
statements that change them, and proves what any interleaving of the four keeps.

`dafny verify dfyconfig.toml` checks everything.

## How it is built

Table contents are values (maps and sequences of rows), and each SQL statement is a function on
them. On top of that stand two kinds of definition:

- state machines, where any number of workers, crashes, sweeps, replays, redeliveries, API calls
  and clock ticks interleave, one statement at a time, and whose theorems speak of every run;
- classes and methods in the program's own imperative form, with its loops and early returns and
  with failures injected at any statement, each proved equal to the functions the machines use.

| file | models |
|---|---|
| `Outbox`, `Dispatch` | the delivery table and log; workers, leases, sweeps, replays as a state machine |
| `AttemptLog`, `Leases`, `LeaseSafety`, `Fairness`, `ClaimLocks`, `LockedWait` | theorems over all runs of that machine, and row locking below it |
| `WebhookStore` | the store class, statement by statement |
| `Derive` | the separator encoding behind derived row ids |
| `Projection`, `SavedRows`, `Projector` | the projector's SQL; what a save leaves in each column; the projector object and its transaction |
| `Convergence`, `MidReplay`, `Redelivery`, `Erasure`, `Completeness`, `ReplayKeys` | crash, restart and redelivery; the outbox inside the whole service |
| `Base64`, `Timestamp`, `Cursor` | the opaque page position as printer and parser |
| `Conditions`, `Paging`, `Walk`, `Stats` | filters compiled to SQL, pages, whole walks, payment statistics |
| `Orders`, `OrderLifecycle`, `OrderIdentity`, `Invoices`, `RefundBound`, `OrderRaces`, `RefundRaces`, `MerchantService` | order creation, matching and refunds as a state machine; the service class |
| `Numeric`, `Grouping`, `Books`, `Accounting`, `Isolation`, `Ledger` | NUMERIC amounts, SQL aggregation and joins, the three period reports |
| `Backoff` | the retry delay in 64-bit arithmetic |

Sequence parameters called `scan` stand for the order in which a table is read, and parameters such
as `left`, `works`, `lands`, `through` or `db` say which statements fail. Clock readings, minted
invoices, random ids and jitter draws are parameters too. What the merchant service asks of the node
is recorded in the field `requests`.

Where a contract describes rows it names their columns, and the methods spell their own queries and
rows rather than call the functions the machines are built from.

## Where the code does less than its documentation says

Each is kept as the code has it, with a lemma that names a failing input and one that says exactly
when the promise does hold, in terms of the state before the statement that decides.

- A worker that outlives its lease can still mark its row. The delivery can then be in two live
  hands (`Leases.StaleMarkBreaksExclusivity`), and a row can end failed with its attempts used up
  although nobody else held it (`LeaseSafety.StaleMarkBreaksBudget`). When a mark keeps either
  promise for good: `LeaseSafety.MarkIsSafeIff` and `LeaseSafety.MarkKeepsPromisesIff`; which states
  keep them: `LeaseSafety.ExclusiveForeverIff` and `LeaseSafety.SafeForeverIff`.
- "Without minting a second invoice" fails when two `CreateOrder` calls race
  (`OrderRaces.LoserGetsAnOrphanInvoice`), and without any race when the first call's insert fails
  (`OrderRaces.RetryMintsAgain`). When a call mints again: `Invoices.MintsAgainIff`; when no call
  ever will: `Invoices.OneInvoiceForeverIff`. A call that loses the insert returns the winner's order
  with its own invoice, which settles nothing; exactly when: `OrderIdentity.InvoiceIsTheOrdersIff`.
- One order can be refunded twice: by overlapping `Refund` calls
  (`RefundRaces.OverlappingRefundsPayTwice`), and by calls one after the other when the first paid
  and could not record it (`RefundRaces.FailedInsertPaysTwice`). When passing a call is safe, and
  when a bound holds, for payments and for rows: `RefundBound.CheckIsSafeIff` and
  `RefundBound.BoundedIff`.
- `NumericToAmount` negates an int32 exponent, which does nothing to the least one, so
  1 * 10^-2147483648 reads as 1 (`Numeric.LeastExponentMisreads`; exact condition
  `Numeric.ConvertsRightIff`). Postgres NUMERIC has at most 16383 digits after the point, so the
  program never receives that input from its own database.
- A settlement total past the amount range is reported as 0, and a payment statistic as nothing
  (`Accounting.TotalsCanOverflow`, `Stats.TotalsCanVanish`; exact conditions
  `Accounting.GrossAgreesIff`, `Accounting.FeesAgreeIff` and `Stats.StatsAddUp`).
- `expJitter` doubles before it caps, so a cap near 2^63 ns lets the product wrap to a negative
  delay (`Backoff.DoublingCanOverflow`; exact condition `Backoff.PromisedDelayIff`). The settings
  the dispatcher runs with are far from it (`Backoff.DispatcherBackoff`).
- A cursor whose year has five digits encodes but does not decode (`Cursor.RoundTrip` is exact).
- `Derive` hashes different inputs from the same bytes exactly when their NUL-separated fields agree
  (`Derive.NulBreaksInjectivity`, `Derive.EncodingsCollideIff`). TEXT columns cannot hold NUL, which
  is why it is enough.

## Model

| member | source | states |
|---|---|---|
| AttemptLog.AttemptLogAgreement | internal/webhook/store.go:76-124 | in every run from the empty outbox, stale workers and crashes included: a delivery's failure rows since its last replay are numbered 1, 2, ..., attempts; every log row is numbered one past the failures before it; there is one log row per mark |
| AttemptLog.LogAgreesInEveryRun | internal/webhook/store.go:76-102 | agreement of attempts column, history and log is an invariant, and the log grows by exactly the mark steps taken |
| Leases.ClaimExclusivityAndDeadLetterBound | internal/webhook/store.go:36-62 | when workers mark inside their lease and nobody replays an in-flight row, no delivery has two live claims, attempts never exceed the maximum, and a row is dead exactly when they reach it |
| Leases.SoundInEveryDisciplinedRun | internal/webhook/store.go:92-133 | the invariant behind it: each live claim is backed by a delivering row due at the lease end whose attempt count is the worker's |
| Leases.SettledRowsStay | internal/webhook/store.go:76-124 | succeeded and dead rows are left only by a replay of that row |
| Leases.MarksAreBounded | internal/webhook/store.go:36-39 | a replay-free run over N deliveries takes at most N * MaxAttempts mark steps |
| LeaseSafety.MarkIsSafeIff | internal/webhook/store.go:92-102 | a mark, late or not, keeps every disciplined continuation exclusive if and only if nobody else holds the delivery, or the mark settles it, or the new due time is not before the end of the other lease |
| LeaseSafety.ExclusiveForeverIff | internal/webhook/store.go:40-62 | every disciplined continuation of a state is exclusive if and only if no row has two live claims and each live claim's row is settled or not due before its lease ends |
| LeaseSafety.SafeForeverIff | internal/webhook/store.go:36-39 | every disciplined continuation keeps exclusivity and the dead-letter bound if and only if, besides, rows are within budget and each live worker's attempt count falls on the same side of the limit as its row's |
| LeaseSafety.MarkKeepsPromisesIff | internal/webhook/store.go:92-124 | which marks keep both promises for good, judged by the worker's count, the row's count and the other holders before the mark |
| LeaseSafety.MarkKeepsSoundIff | internal/webhook/store.go:92-124 | a mark keeps the invariant of disciplined runs if and only if nobody else holds the row, it has an attempt left, and the worker decides as the row's own count would |
| LeaseSafety.StaleMarkBreaksBudget | internal/webhook/store.go:92-102 | a concrete run, with two attempts allowed, in which a stale mark of a row nobody else holds leaves it failed with both attempts used |
| LeaseSafety.ReplayIsSafeIff | internal/webhook/endpoints.go:146-161 | a replay keeps every disciplined continuation exclusive if and only if nobody is sending that delivery |
| Leases.StaleMarkBreaksExclusivity | internal/webhook/store.go:92-102 | a concrete run in which a stale mark puts one delivery into two live hands |
| LockedWait.BoundedWaitUnderLocks | internal/webhook/store.go:43-57 | with overlapping claim statements that lock and skip row by row: once ahead / limit + 1 statements begun since a delivery is overdue have committed, it has been claimed or is locked by a statement about to claim it |
| LockedWait.CommitTakesTheLimit | internal/webhook/store.go:47-51 | a statement begun while a delivery is overdue that neither takes it nor finds it locked takes exactly `limit` rows, all ahead of it when the statement began and still so, and they leave the queue |
| LockedWait.TakenIsPicked | internal/webhook/store.go:43-57 | claimed there means in the batch of one of the atomic claims the run amounts to |
| Fairness.BoundedWait | internal/webhook/store.go:43-57 | the same bound over the atomic machine, for claims no other claim statement overlaps, with no other side condition: the delivery is in one of the next ahead / limit + 1 batches |
| Fairness.MissedClaim | internal/webhook/store.go:43-57 | a claim that no other overlaps and that misses an overdue delivery takes exactly `limit` of the rows ahead of it and changes nothing about it |
| Fairness.StepNeverLengthensTheQueue | internal/webhook/store.go:94-133 | no other step ever puts a row ahead of an overdue delivery |
| Fairness.DueSoonInEveryRun | internal/webhook/store.go:17-19 | every unsettled row is due within max(lease, backoff cap) of now, in every run |
| Fairness.NoDeliveryIsLost | internal/webhook/store.go:126-133 | from any reachable state, with all workers gone: that time, one sweep and one large enough claim hand out exactly the unsettled rows |
| ClaimLocks.LockedRunRefines | internal/webhook/store.go:43-53 | snapshot, skip-locked, recheck and late update, interleaved statement by statement, have the same effect as a run in which each claim is one atomic step |
| ClaimLocks.MoveKeepsLocks | internal/webhook/store.go:47-51 | no row is locked twice, and a locked row is still claimable as of its statement's start |
| ClaimLocks.ConcurrentBatchesAreDisjoint | internal/webhook/store.go:36-40 | of two claim statements that overlap and both commit, the later never takes a row of the earlier one's until another statement has written it |
| WebhookStore.Store.ClaimDue | internal/webhook/store.go:40-73 | for any limit, a batch of the earliest due rows is leased by one statement; each delivery handed out has the id, endpoint, event, url, secret, payload and attempts of its row, is next due five minutes on, and carries its event's type; the call returns exactly if every row reaches the caller and has a recorded event, and is an error otherwise although the leases stay |
| WebhookStore.ClaimDueIsAStep | internal/webhook/store.go:40-73 | a call that returns is one step of the dispatcher machine and what it returns are the claims (id, attempts, lease end) the machine adds, so the theorems over all runs speak of it |
| WebhookStore.SelectDue | internal/webhook/store.go:47-51 | ordering by due time with a limit picks as many due rows as allowed, none due after one left behind |
| WebhookStore.Store.MarkSucceeded | internal/webhook/store.go:76-87 | new table and log; unknown ids change nothing |
| WebhookStore.Store.MarkFailed | internal/webhook/store.go:92-106 | new table and log, with the incremented attempt number logged |
| WebhookStore.Store.MarkDead | internal/webhook/store.go:110-123 | new table and log, due time and last error untouched |
| WebhookStore.Store.Requeue | internal/webhook/store.go:126-138 | re-arms exactly the expired leases and counts them |
| WebhookStore.Store.Replay | internal/webhook/endpoints.go:146-161 | resets a delivery of that endpoint, and is a 404 otherwise |
| Derive.EncodingIsInjective | internal/platform/id/id.go:23-34 | NUL-free inputs with equal encodings are equal, whatever their number of parts |
| Derive.HashInput | internal/platform/id/id.go:23-34 | the hash writes spell that encoding |
| Derive.NulBreaksInjectivity | internal/platform/id/id.go:23-34 | two different inputs with equal encodings, one holding NUL |
| Derive.EncodingsCollideIff | internal/platform/id/id.go:23-34 | two inputs have equal encodings if and only if cutting all their strings at NUL gives the same fields |
| Derive.DeliveriesDoNotCollide | internal/indexer/deliveries.go:40-46 | delivery ids determine their event and endpoint |
| Projector.Projector.Save | internal/indexer/projector.go:59-77 | all or nothing with a failure at any statement or at commit: success is exactly one whole flush, an error leaves the database as it was, the buffer is gone either way, and only a real connection failure is reported as one; after success, column by column, which deliveries and event rows are new and what is in them |
| Projector.Projector.FlushInto | internal/indexer/projector.go:60-76 | the transaction body equals the fold over the buffer, then the checkpoint, within a stated number of statements |
| SavedRows.FlushSavesRows | internal/indexer/deliveries.go:27-83 | after a flush a delivery id that was absent is present if and only if a buffered event and an endpoint that is active and lists its type derive it; the row has that endpoint's url and secret and the encoding of the first such event, is pending, untried and due at once; likewise every column of a new event row is the first such event's, an empty text being NULL |
| Projector.Projector.ApplyEvent | internal/indexer/projector.go:82-113 | one event's statements equal the table function, errors included |
| Projector.Projector.ProjectEvent | internal/indexer/projector.go:116-174 | the three projections with their conflict rules, and order matching |
| Projector.Projector.InsertDeliveries | internal/indexer/deliveries.go:40-52 | inserting endpoint by endpoint, in any order, equals the whole fan-out with existing rows winning |
| Projector.Projector.Load | internal/indexer/projector.go:44-54 | the committed checkpoint, 0 with none |
| Convergence.RedeliveryConverges | internal/indexer/projector.go:59-168 | any run of rolled-back saves, restarts and in-order redelivery that ends on the final change leaves the tables of one clean run, ingest times aside, although some columns keep the first value and others the last |
| MidReplay.TablesMidReplay | internal/indexer/projector.go:59-168 | wherever such a run stops: the checkpoint is that of the change committed last; a column that keeps the first value holds what the changes up to the newest ever committed make of it; a column that keeps the last value holds some committed change's write that no change between it and the one committed last overwrites, or its start value |
| Convergence.EventWrites | internal/indexer/projector.go:82-168 | what one event does to every column of every table, by that column's rule |
| Convergence.FlushSucceedsIff | internal/indexer/projector.go:82-113 | whether a change can be saved depends only on its events and the endpoints, never on what is stored |
| Convergence.CellsDetermineTables | internal/indexer/projector.go:82-168 | the columns read one by one determine the tables |
| Redelivery.FlushOnlyAdds | internal/indexer/deliveries.go:40-51 | saving any change, first time or again, alters no existing event row, delivery or order past pending |
| Redelivery.RedeliveryIsNoOpIff | internal/indexer/projector.go:84-88 | saving again leaves events and deliveries alone if and only if every endpoint matching now was served before |
| Erasure.RedeliveriesCanBeErased | internal/indexer/deliveries.go:40-51 | interleaved with dispatcher, replay, test, merchant and subscription steps: while no endpoint is added or widened, deleting redeliveries from a run leaves deliveries, log, claims and events equal |
| Completeness.OutboxIsComplete | internal/indexer/projector.go:59-113 | in every reachable state each pair of an event and an endpoint that some commit of the event found active and subscribed has exactly one delivery, every delivery's event exists, and the checkpoint is that of a change whose events and all earlier ones' are recorded |
| Completeness.EveryMatchHasOneDelivery | internal/indexer/deliveries.go:27-83 | whatever happened before and happens after: each event of a committed change has, at the end, exactly one delivery for each endpoint that was active and listed its type at that commit |
| Completeness.DeliveredIff | internal/indexer/deliveries.go:27-83 | at the end of any run of the whole service an event of the node has exactly one delivery to an endpoint if some commit of the event found the endpoint active and subscribed, and none otherwise |
| Completeness.EveryDeliveryWasMade | internal/indexer/deliveries.go:39-52 | every delivery with a derived id comes from such a commit, and still has the event's encoding and the url and secret the endpoint had then, whatever workers, replays and subscription changes did since |
| Completeness.PairHasOneDelivery | internal/platform/id/id.go:23-40 | the row at the derived id is the only delivery of its pair |
| ReplayKeys.PaymentKeysStay | internal/indexer/projector.go:142-150 | a payment's created_at, and so its page position, never changes under redelivery |
| ReplayKeys.ChannelKeysMove | internal/indexer/projector.go:162-168 | a run in which redelivery moves a channel's opened_at and the checkpoint back |
| Base64.RoundTrip | internal/query/cursor.go:27-40 | unpadded URL-safe base64 (sections 3.2 and 5 of RFC 4648) decodes what it encodes |
| Base64.KnownTexts | internal/query/cursor.go:27-31 | the last test vector of section 10 of RFC 4648, and the two symbols in which section 5 differs from section 4 |
| Base64.BreaksDoNotMatter | internal/query/cursor.go:37-40 | a line break anywhere in a cursor changes nothing of what it decodes to |
| Timestamp.RoundTrip | internal/query/cursor.go:27-31 | the text of an instant (section 5.6 of RFC 3339, trimmed fraction) parses to the same nanosecond exactly up to year 9999 |
| Timestamp.TextShape | internal/query/cursor.go:27-31 | where the digits, dashes, T, colons, fraction and Z of a written timestamp stand and which part of the date and time each is |
| Timestamp.KnownInstants | internal/query/cursor.go:27-31 | the Unix epoch is 62135596800 seconds after year 1 began; February 2000 had 29 days and February 1900 had 28 |
| Timestamp.MonthStarts | internal/query/cursor.go:27-31 | the day of the year each month begins on |
| Timestamp.ZonedTimeReads | internal/query/cursor.go:45-49 | a time given in a zone is read as the instant that far earlier in UTC |
| Timestamp.ZoneReadsBack | internal/query/cursor.go:45-49 | a zone of hours and minutes is read as that many seconds ahead, or behind after a minus |
| Cursor.RoundTrip | internal/query/cursor.go:27-51 | a cursor decodes to itself, bars in its id included, if and only if its year has four digits; encoding never yields the empty string |
| Cursor.OnlyZeroReadsAsStart | internal/query/cursor.go:22-37 | only the start position, time and id both zero, is read as the start |
| Cursor.CursorText | internal/query/cursor.go:27-31 | under its base64 an encoded cursor is the timestamp, a bar and the id |
| Conditions.LaterArgumentsDoNotMatter | internal/query/repo.go:104-139 | conditions and arguments added later change the meaning of nothing built before |
| Conditions.KeysetMeans | internal/query/repo.go:131-139 | the row-wise comparison with its two placeholders keeps exactly the rows strictly past the cursor, under SQL's three-valued logic |
| Basics.TextLessIff | internal/query/repo.go:131-139 | the order of ids behind it: the first byte that differs decides, a prefix comes first |
| Conditions.RangeMeans | internal/query/repo.go:118-129 | the two optional bounds keep exactly the rows within them |
| Conditions.PaymentConditionsMean | internal/query/queries.go:14-28 | the compiled conjunction with its argument list selects exactly the rows the filter, range and cursor describe |
| Conditions.ChannelConditionsMean | internal/query/queries.go:79-90 | likewise for channels |
| Conditions.EventConditionsMean | internal/query/queries.go:141-150 | likewise for events |
| Conditions.Conds.Keyset | internal/query/repo.go:131-139 | the builder's new conditions and arguments |
| Paging.PaginateMakesPage | internal/query/queries.go:204-212 | trimming an over-fetched slice makes the page a client is entitled to, with a next cursor exactly when more remain |
| Paging.Payments | internal/query/queries.go:14-54 | the newest matching rows past the cursor, at most the clamped limit, and a way on exactly when more remain |
| Paging.Channels | internal/query/queries.go:79-116 | likewise for channels |
| Paging.Events | internal/query/queries.go:141-175 | likewise for events |
| Paging.ClampLimit | internal/query/repo.go:148-158 | page sizes are 50 by default, at most 200, and as asked for in between |
| Walk.FullWalkIsTheSortedList | internal/query/queries.go:14-54 | following next_cursor over a table that stands still ends after exactly max(1, ceil(n / limit)) pages, whose concatenation is the filtered rows, newest first, each once |
| Walk.SortedListIsUnique | internal/query/queries.go:24-28 | that list is the only such list |
| Walk.WalkIsStable | internal/query/cursor.go:13-15 | with arbitrary changes between fetches, keys strictly decrease over the walk and a row present throughout at one position is returned exactly once |
| Walk.TokensNeverRestart | internal/query/queries.go:204-212 | no cursor the service emits is read back as the start |
| Stats.StatsPayments | internal/query/queries.go:177-201 | a row for an asset exists if and only if some payment between the bounds has it, or has none and the row is 'unknown'; rows are in asset order, count those payments, and show the sum of their amounts exactly if it fits |
| Stats.StatsAddUp | internal/query/queries.go:177-201 | counts add up to the payments in the range; shown totals add up to everything paid if and only if no asset's payments in the range exceed an amount, and never to more |
| Stats.TotalsCanVanish | internal/query/repo.go:160-169 | two payments of the largest amount are counted and their total is shown as nothing |
| OrderIdentity.OneOrderPerPair | internal/merchant/orders.go:38-73 | over any number of racing, failing and retried calls: at most one order per merchant and non-empty external id, and every call that succeeds returns it |
| OrderIdentity.InvoiceIsTheOrdersIff | internal/merchant/orders.go:55-73 | the invoice a call returns is that of the order it returns if and only if nobody held the pair when the call inserted; otherwise its invoice belongs to no order |
| OrderIdentity.AnswerTellsInvoice | internal/merchant/orders.go:38-44 | a call answered by its first lookup, or with its own row, returns that order's invoice |
| Invoices.MintsAgainIff | internal/merchant/orders.go:38-53 | between a call's first lookup and its mint, whatever others do: it mints a second invoice for its pair if and only if the lookup got through, no order held the pair then, and one had been minted by the time of the mint |
| Invoices.OneInvoiceForeverIff | internal/merchant/orders.go:26-28 | from any reachable state, no continuation gives a pair a second invoice if and only if it has at most one, an order holds it, and no call for it stands between lookup and mint |
| Invoices.ClosedForever | internal/merchant/orders.go:26-44 | once an order holds the pair and no call is about to mint, the pair's invoices never change again |
| OrderIdentity.AnswersAreFinal | internal/merchant/orders.go:38-73 | what a call returned stays true of later states |
| OrderRaces.LoserGetsAnOrphanInvoice | internal/merchant/orders.go:66-70 | a run of two racing calls with two minted invoices and one order |
| OrderRaces.RetryMintsAgain | internal/merchant/orders.go:47-64 | a run without a race, for any pair: the first call's insert fails, and the retry mints a second invoice and returns the only order |
| OrderLifecycle.LifecycleInEveryRun | internal/merchant/refunds.go:22-59 | paid_at is set exactly on paid and refunded orders, a refund row implies its order was paid, a refunded order has a refund row |
| OrderLifecycle.OrdersOnlyMoveForward | internal/indexer/merchant_match.go:25-29 | over any run an order keeps its identity, its status never goes back, and paid_at once set never changes |
| OrderLifecycle.WhoMovesAnOrder | internal/indexer/merchant_match.go:25-29 | only the match of its own invoice pays an order, with the settlement time; only a Refund call that recorded a row refunds it |
| RefundBound.OnlyChecksRaise | internal/merchant/refunds.go:22-28 | what was done for an order plus what calls past their check may still do, in payments or in rows, grows only when a call passes its check, and then by one |
| RefundBound.PotentialIsReached | internal/merchant/refunds.go:34-55 | from any reachable state that many payments, or rows, can really come about without another check |
| RefundBound.BoundedIff | internal/merchant/refunds.go:22-59 | with no further check passed on it, an order stays within n payments (or rows) if and only if those made and the calls that may still make one are at most n |
| RefundBound.CheckIsSafeIff | internal/merchant/refunds.go:22-46 | passing one more call keeps the order at one payment (or row) if and only if none was ever made for it and no other call is past its check without having made one |
| RefundBound.RowsNeverOutnumberPayouts | internal/merchant/refunds.go:39-55 | in every run an order has at most as many refund rows as payments that left |
| RefundBound.OneRefundPerOrder | internal/merchant/refunds.go:22-59 | calls that do not overlap on an order pay it back at most once if none fails after paying, and record it at most once if none fails after recording |
| RefundRaces.FailedInsertPaysTwice | internal/merchant/refunds.go:39-55 | a run of calls that do not overlap in which one order is paid back twice and has one row |
| RefundRaces.OverlappingRefundsPayTwice | internal/merchant/refunds.go:22-46 | a run from the empty shop in which overlapping calls pay one order back twice |
| MerchantService.Service.CreateOrder | internal/merchant/orders.go:38-73 | the method, with any statement failing, is one run of the order machine that uses exactly the given answers; the node is asked for one invoice exactly if no order is known to hold the pair; the row is inserted exactly if that and the insert succeed, with every column as asked for (CKB for no asset, NULL for no external id); an answer is always an order of the same merchant and external id with its invoice; which error otherwise |
| MerchantService.Service.OrderByExternalId | internal/merchant/orders.go:80-83 | the pair's order, not found, or a failed read |
| MerchantService.Service.GetOrder | internal/merchant/orders.go:76-78 | an order is visible to its own merchant only |
| MerchantService.Service.PayerPubkey | internal/merchant/refunds.go:67-80 | the peer recorded with the payment; none or an empty one is an invalid state, a failed read an error of its own |
| MerchantService.Service.Refund | internal/merchant/refunds.go:21-65 | likewise a run of the machine; it pays exactly once, the peer that paid the invoice and the amount asked, exactly if the order is the merchant's and paid, the amount parses and the payer is known; it succeeds exactly if the payment and every statement go through; every column of the recorded row, and nothing but the status of the order changes |
| Numeric.ToAmountIsExact | internal/platform/db/numeric.go:30-55 | above the least exponent, conversion succeeds exactly on whole non-negative values in range and returns the value |
| Numeric.ErrorsSayWhy | internal/platform/db/numeric.go:30-55 | which error is returned says whether the value is a fraction, negative or too large, a fraction first |
| Numeric.RepresentationDoesNotMatter | internal/platform/db/numeric.go:25-29 | two representations of one number convert to the same amount or the same error |
| Numeric.WrittenAmountsReadBack | internal/platform/db/numeric.go:21-23 | what is written reads back, in any representation of it and in no other |
| Numeric.AmountsAre128Bits | internal/platform/db/numeric.go:45-55 | the amount range ends at 2^128 - 1 |
| Numeric.ConvertsRightIff | internal/platform/db/numeric.go:41-47 | for every finite NUMERIC, conversion is right if and only if the exponent is above -2^31, or the digits are not positive, or they exceed an amount and, divided by 10^2147483648, leave a remainder or exceed one still |
| Numeric.LeastExponentMisreads | internal/platform/db/numeric.go:41-47 | the failing input |
| Numeric.NumericToAmount | internal/platform/db/numeric.go:30-55 | the in-place conversion computes that function, error order included |
| Books.MustAmountOfASum | internal/merchant/settlement.go:112-121 | however the database spells a whole sum, mustAmount yields it, or 0 past the range |
| Books.HitsAreAll | internal/merchant/settlement.go:26-28 | a left row is joined with all the right rows that have its key, in order, whether keys repeat or not |
| Books.JoinDuplicatesNothing | internal/merchant/settlement.go:26-28 | a left join against unique keys returns every left row once, beside its match if it has one |
| Grouping.GroupBy | internal/merchant/settlement.go:31-32 | one group per key in key order, each with its exact count and sum |
| Grouping.TextBeforeIff | internal/query/queries.go:182-183 | text is ordered by the first character that differs, a prefix first |
| Grouping.GroupsAddUp | internal/query/queries.go:182-183 | groups hold every row once: sums and counts add up |
| Accounting.GrossAgreesIff | internal/merchant/settlement.go:21-55 | with order amounts in range, settlement gross adds up to the export's amounts if and only if each asset's total is in range, and never to more |
| Accounting.FeesAgreeIff | internal/merchant/export.go:98-105 | settlement fees add up to the export's refunds if and only if no asset's fees leave the range while one of its orders still shows a refund, and never to more |
| Accounting.ReconciliationAgrees | internal/merchant/settlement.go:78-110 | matched and unmatched add up to the export's lines; the discrepancy is at most the total sold, and the exact unmatched sum if and only if that is in range |
| Accounting.TotalsCanOverflow | internal/merchant/settlement.go:46-47 | two in-range orders whose settled total reads as 0 |
| Ledger.SettlementRows | internal/merchant/settlement.go:22-55 | filter, join, group and loop, from tables scanned in any order, yield one row in order for each asset the merchant sold in, whose gross and fees are what exactly the merchant's own orders in it paid in the period add up to, with net the difference or 0 |
| Ledger.Ledger.Settlement | internal/merchant/settlement.go:21-71 | the same rows are recorded one by one outside a transaction: a failure leaves exactly those inserted before it |
| Ledger.Reconcile | internal/merchant/settlement.go:78-110 | exactly the merchant's own orders paid in the period for which no payment is on record are listed, each once, and the counts are exact |
| Ledger.Ledger.Reconciliation | internal/merchant/settlement.go:77-125 | a run is recorded exactly when the report is returned |
| Ledger.ExportRows | internal/merchant/export.go:97-127 | one line for each of the merchant's own orders paid in the period and no other, by payment time, with its columns and its own refund total |
| Isolation.OtherMerchantsDoNotMatter | internal/merchant/settlement.go:28-30 | a merchant's three reports are the same in any two books that agree on that merchant's orders, their refunds and which have a payment |
| Isolation.WithoutForeignOrder | internal/merchant/export.go:103-104 | which covers taking any other merchant's order out of the books with its refunds |
| Backoff.ExpJitter | internal/webhook/backoff.go:13-28 | the loop with its wrap-around and early cap computes the specified wait |
| Backoff.PromisedDelayIff | internal/webhook/backoff.go:10-22 | for 0 < base <= max, every attempt N waits on min(max, base * 2^(N-1)) if and only if the doubling that first reaches max fits 64 bits |
| Backoff.TwiceTheCapFits | internal/webhook/backoff.go:10-22 | 2 * max representable suffices |
| Backoff.WithinHalf | internal/webhook/backoff.go:23-27 | the wait lies in [d/2, d] |
| Backoff.UncappedWaitsNeverShrink | internal/webhook/backoff.go:13-28 | below the cap a later attempt never waits less than an earlier one, whatever the draws |
| Backoff.DispatcherBackoff | internal/webhook/run.go:24 | with one second and five minutes nothing overflows, and no wait exceeds five minutes, the bound the outbox theorems use |
| Backoff.DoublingCanOverflow | internal/webhook/backoff.go:16-21 | a base and cap for which the second wait is negative |

## Left out

- The node's RPC client, the ingest runner, the dispatcher loop, request signing and the Amount type live in a library that is not part of this model; the runner and dispatcher enter as environment contracts (changes in seq order, restart no later than the change after the checkpoint; dead at the last attempt, else retry), an amount as a whole number of at most 128 bits.
- HTTP routing, authentication, configuration, migrations, connection pools, process start-up and the shape of JSON responses.
- SHA-256 itself, random ids and secrets: hashes are taken to be collision-free, generated ids to be fresh.
- CSV and XLSX rendering of the export rows.
- Listing and single-row lookups (`PaymentByHash`, `ChannelByID`, the endpoint list): they would only add easy members.
- Postgres beyond the statements used: outside `ClaimDue` each statement is atomic, `now()` is one clock that never goes back, integer columns do not overflow, and text is compared by bytes.
- A commit, insert, invoice or payment that takes effect although its reply is lost: here a failed statement or node call has no effect.
- Timestamps: the month of an order is a given test on paid_at, time zones in `to_char` do not appear, listed tables have no null timestamps, and the truncation of nanoseconds to microseconds by the database is not modelled.
- LockedWait.BoundedWaitUnderLocks: assumes that no statement holding the delivery is rolled back and that no other statement re-arms a row at the very instant a claim statement in progress began; each such event can cost one more claim.
- Timestamp.RoundTrip: covers the text the service writes; that Go's parser also accepts one-digit hours and comma fractions is not modelled, nor are instants before year 1.
- Projector.Projector.ProjectEvent: decoding a payload is a given outcome per event, because JSON is not modelled.
- Erasure.RedeliveriesCanBeErased: is about events, deliveries, log and claims; read models do go back in the middle of a replay, and `MidReplay.TablesMidReplay` says how far.
- The probes for missing tables and the two deferred features (UDT invoices, expiring orders).
