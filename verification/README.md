# Offline stock ledger and sync engine: a verified model

This project models the desktop app's offline stock database and the engine that synchronises it, and proves that
the copies the code keeps of the same facts stay in agreement over every run of commands.

The app records every stock movement as a row of a ledger (`inventory_transactions`). With each row it patches a
running total (`stock_balances`), queues an event for the server (`outbox_events`), writes a day book and, through
triggers, a daily snapshot. Edits and deletes rewrite all of these. Transfers between stores move goods in several
steps. A sync run pushes queued events in batches, reads receipts, retries, and pulls the server's snapshot only if
nothing went wrong. Two small services sit beside it: a cache of balances and a queue of store pushes.

## Layout

| file | what it holds |
|---|---|
| `Types.dfy`, `Sums.dfy` | keys, clock, composed texts; totals over the rows of a table |
| `Outbox.dfy` | event statuses, i64 backoff, status writes one by one and in a batch, fetching, archiving, product upserts |
| `Database.dfy` | the tables and, command by command, the state each command leaves or the error it answers |
| `LocalDatabase.dfy` | the commands as methods of a class that change the tables statement by statement, proved to reach exactly that state |
| `Effects.dfy` | what each command asks of its caller, and the row and event it leaves, column by column |
| `LedgerOps.dfy` | every stock command seen as one or two ledger operations |
| `Projection.dfy`, `Undo.dfy` | balances against the ledger; deleting a row as if it had never been recorded |
| `Journal.dfy`, `OutboxLedger.dfy`, `Delivered.dfy` | no event is lost; what the events carry against the ledger; delivered events stay delivered |
| `Transfers.dfy`, `StrictMode.dfy` | the transfer state machine, goods in transit, non-negative balances |
| `DayBooks.dfy`, `Snapshots.dfy` | day books and daily snapshots against ledger and balances |
| `ProductEdits.dfy` | product edits racing with pushes |
| `PushOrder.dfy`, `PushSigns.dfy` | the order of a push, and which commands it suits |
| `Delivery.dfy`, `PushPass.dfy`, `PushTurn.dfy` | what one pass does to an event, one turn of the push loop, and why the loop ends |
| `SyncAccounts.dfy`, `SyncRun.dfy` | what a run knows of its events and pushes, the whole run and the pull gate |
| `PullApply.dfy` | applying a pulled snapshot in one transaction |
| `BalanceCache.dfy`, `StoreQueue.dfy` | the balance cache and the store push queue |

`dafny verify dfyconfig.toml` checks the whole project.

## How to read it

- A command is one atomic step. Its generated ids are arguments of the call; a clash with an existing row is the
  error `IdTaken`. Times are whole seconds (milliseconds in `BalanceCache`), and a date is a time divided by the day.
- `Database.Step` is the state after a command, accepted or refused; `Run` is a list of commands. The run theorems
  quantify over every starting state and every list.
- The server is an arbitrary function from request number to answer, the clock any non-decreasing function.
- A rejection reason is a datatype: a text that starts, in any letter case, with one of the eight validation messages
  after which a rejection is final, or any other text.

## What turned out not to hold as documented

- A pull between recording a row and deleting it leaves a difference: the pulled balance counts the row (or not)
  while the delete still takes it back. `Undo.DeletedRowLeavesNoTrace` gives the exact condition,
  `Undo.PulledRowLeavesItsWeight` an instance.
- The comment on the backoff says base times 2^retry_count (lib.rs:4676); the code uses retry_count - 1. In a release
  build the i64 product wraps, and from the 65th retry on there is no delay at all (`Outbox.BackoffIsCappedDoubling`).
- The cache's comment says it is invalidated on every local stock mutation; the transfer commands do not invalidate it.
  `BalanceCache.OtherWriterLeavesStaleRead` gives the stale read, `BalanceCache.ReadsAreRecent` its 30 second bound.
- With a batch size above 500 the fetch is clamped but the stop test is not, so a run pulls with events left unsent
  (`SyncRun.OversizedBatchForgets`).
- The batch form of the pull judges a local product by the incoming sku, the single-row form by its own, and only the
  single-row form heals a store that arrives under another id (`PullApply.BatchMatchesSingle`, exact condition).
- A real product name can still be lost to a placeholder, after a record with a real sku and a placeholder's name
  (`PullApply.NameFollowsAuthority`, exact condition; `PullApply.MiscodedRecordLosesName`, an instance).
- An edit made in the same second as another open event of the product, with another snapshot, may be delivered before
  it (`ProductEdits.EditIsDeliveredLast`, exact condition; `ProductEdits.SameSecondEditCanLose`, an instance).
- A run aborted before anything failed still goes on to the pull and writes the last-sync time; its contract says so by
  tying the pull to the pushes alone (`SyncRun.TriggerSync`).
- The row that cancels a dispatched transfer is an outflow type with a positive quantity, so the push order does not
  keep levels non-negative for it (`PushOrder.CompensationComesLate`; `PushOrder.PushNeverDipsExactly` says exactly
  when it does).
- Strict mode does not cover edits and deletes: they are accepted whatever the stock
  (`StrictMode.RewriteEscapesExactly`, exact condition).

## Model

| member | source | states |
|---|---|---|
| Projection.ProjectionEqualsLedger | apps/desktop/src-tauri/src/lib.rs:2816-2849 | after any run of commands every balance is its baseline plus the sum of its ledger rows, the baseline being reset by pulls of that key and by nothing else |
| Projection.StepKeepsBaseline | apps/desktop/src-tauri/src/lib.rs:4225-4267 | no command, accepted or refused, moves the difference between a balance and its ledger sum, except a pull of that key |
| Projection.BalanceMovesWithLedger | apps/desktop/src-tauri/src/lib.rs:4377-4408 | without a pull of the key, a run changes balance and ledger sum by the same amount |
| LedgerOps.StepFollows | apps/desktop/src-tauri/src/lib.rs:2989-3021 | every accepted stock command changes the ledger by its operations and the balances by the matching patches, and nothing else in them |
| LedgerOps.PatchShifts | apps/desktop/src-tauri/src/lib.rs:4225-4267 | a patch moves a balance by exactly what the operation moves the ledger sum of that key |
| LedgerOps.PullSetsQuantities | apps/desktop/src-tauri/src/lib.rs:5406-5415 | a pull sets each listed balance to the last value listed for it and leaves every other table but the snapshots alone |
| Effects.ReceiveEffect | apps/desktop/src-tauri/src/lib.rs:2798-2885 | a receipt is accepted exactly for a positive quantity and an unused id; it adds one unsynced row with the columns given and one PENDING event, due at once, that states it |
| Effects.SellEffect | apps/desktop/src-tauri/src/lib.rs:2945-3060 | a sale is accepted exactly for a positive quantity, a receipt number that is not blank and enough AVAILABLE stock; its row and event, column by column |
| Effects.ReturnEffect | apps/desktop/src-tauri/src/lib.rs:3157-3275 | a return is accepted exactly with a known type and bucket and, to a supplier, enough stock in it; its row and event |
| Effects.AdjustEffect | apps/desktop/src-tauri/src/lib.rs:4056-4150 | an adjustment is accepted exactly with a reason that is not blank and a result that is not negative; its row and event |
| Effects.MoveEffect | apps/desktop/src-tauri/src/lib.rs:3315-3500 | a bucket move is accepted exactly between two different buckets out of three, with a reason and enough stock; its two rows and events |
| Effects.EditEffect | apps/desktop/src-tauri/src/lib.rs:4190-4293 | an edit is accepted exactly for a row that exists and, on a sale, with a receipt number; it changes delta, reference and reason alone, and restates the event as PENDING with no retries and no error, its times unchanged |
| Effects.DeleteEffect | apps/desktop/src-tauri/src/lib.rs:4343-4449 | deleting a SYNCED or ACCEPTED row adds exactly its void event and leaves its own event alone; deleting any other row rejects its own event and queues nothing |
| Effects.CreateTransferEffect | apps/desktop/src-tauri/src/lib.rs:3602-3648 | a transfer is created exactly for a positive quantity between two different stores, as a DRAFT with the terms given |
| Effects.DispatchEffect | apps/desktop/src-tauri/src/lib.rs:3653-3770 | a dispatch is accepted exactly from DRAFT with enough stock; its row and event |
| Effects.ReceiveTransferEffect | apps/desktop/src-tauri/src/lib.rs:3778-3880 | a transfer is received exactly from DISPATCHED or EXCEPTION; its row and event |
| Effects.CancelTransferEffect | apps/desktop/src-tauri/src/lib.rs:3888-3990 | a transfer is cancelled from DRAFT without a row, and from DISPATCHED or EXCEPTION with the row that restores the stock |
| Effects.FetchEffect | apps/desktop/src-tauri/src/lib.rs:4547-4565 | what a fetch, forced or not, does to each column of an event |
| Effects.RowStatusesEffect | apps/desktop/src-tauri/src/lib.rs:4930-4982 | each row takes the last status listed for it, and no other column changes |
| Effects.SaveProductEffect | apps/desktop/src-tauri/src/lib.rs:2290-2376 | a product edit leaves one PENDING event with the new snapshot, due at once, as the base event or, while that is SENDING, as a follow-up, and is refused only if the follow-up's id is taken |
| Undo.DeletedRowLeavesNoTrace | apps/desktop/src-tauri/src/lib.rs:4343-4449 | a row recorded by receive, sell, return or adjust, edited any number of times, pushed or not, and deleted leaves the ledger of the run that never had it, and every balance too if and only if the row weighed nothing when its key was last pulled; the other stock and transfer commands are those accepted in both runs or refused in both |
| Undo.UnpulledRowLeavesNoTrace | apps/desktop/src-tauri/src/lib.rs:4343-4449 | in particular, without a pull of its key such a row leaves every balance as if it had never been recorded |
| Undo.DeletedRowAt | apps/desktop/src-tauri/src/lib.rs:4377-4395 | key by key, the balances of the two runs differ by what the row weighed at the last pull of its key |
| Undo.PulledRowLeavesItsWeight | apps/desktop/src-tauri/src/lib.rs:4377-4395 | an instance: a receipt whose key is pulled before it is deleted ends short of the pulled balance by its quantity |
| Undo.RunsStayTwins | apps/desktop/src-tauri/src/lib.rs:4190-4293 | a run and the run without the commands on one row stay apart by that row only, whatever sync work runs in between and as long as no other stock or transfer command is accepted in one of them alone |
| Outbox.BackoffFitsExactly | apps/desktop/src-tauri/src/lib.rs:4700-4712 | the backoff product fits an i64 if and only if the new retry count is at most 61 |
| Outbox.BackoffIsCappedDoubling | apps/desktop/src-tauri/src/lib.rs:4838-4843 | in wrapping i64 arithmetic the delay is min(5*2^(n-1), 3600) up to 64 retries, and zero beyond |
| Outbox.BackoffNearOverflow | apps/desktop/src-tauri/src/lib.rs:4702-4711 | for 62 to 64 retries the product overflows and the delay is still the cap |
| Outbox.BackoffMonotone | apps/desktop/src-tauri/src/lib.rs:4702-4711 | the delay never shrinks, reaches the cap at the eleventh retry and not before |
| Outbox.BatchRefinesSingles | apps/desktop/src-tauri/src/lib.rs:4800-4885 | the batch update equals the single updates in order, repeats included, if every id exists, and fails otherwise |
| Outbox.SetEachPointwise | apps/desktop/src-tauri/src/lib.rs:4679-4757 | with one entry per event each named event makes its own transition and no other row changes |
| Outbox.SelectBatch | apps/desktop/src-tauri/src/lib.rs:4630-4662 | a fetch returns distinct eligible rows, oldest first, and leaves an eligible row out only behind a full batch of rows no younger |
| Outbox.ResetClearsSending | apps/desktop/src-tauri/src/lib.rs:4547-4565 | a fetch leaves nothing SENDING, changes no payload, and reopens a terminal event only if forced and rejected |
| Journal.NoEventIsLost | apps/desktop/src-tauri/src/lib.rs:4898-4915 | over any run every event ever queued is still in the outbox or was archived from a terminal status |
| Journal.StepKeepsEvents | apps/desktop/src-tauri/src/lib.rs:4898-4915 | the only command that removes an event is the cleanup, and only a terminal event older than the window |
| Journal.StepOutbox | apps/desktop/src-tauri/src/lib.rs:4269-4293 | what every accepted command does to the outbox, and that it does nothing else to it |
| Journal.FetchLeavesNothingSending | apps/desktop/src-tauri/src/lib.rs:4547-4565 | after a fetch no row is SENDING, whatever a push did before |
| OutboxLedger.OutboxCarriesLedger | apps/desktop/src-tauri/src/lib.rs:4410-4449 | over runs with no forced fetch and no server rejection the non-rejected events carry, key by key, exactly the ledger, through edits, rejected unsynced deletes and void events |
| OutboxLedger.StatusWriteKeepsSurplus | apps/desktop/src-tauri/src/lib.rs:4700-4753 | a status write keeps that agreement if and only if it neither rejects a movement of the key nor revives a rejected one |
| OutboxLedger.FaithfulStep | apps/desktop/src-tauri/src/lib.rs:4269-4293 | one step of such a run keeps the agreement and keeps every ledger row stated by its own event |
| OutboxLedger.DropRow | apps/desktop/src-tauri/src/lib.rs:4410-4449 | deleting a row together with rejecting its event, or with an opposite void event, keeps the agreement |
| Delivered.DeliveredStaysDelivered | apps/desktop/src-tauri/src/lib.rs:4410-4449 | over any run in which status writes mark rows first, an event that is SYNCED or ACCEPTED and that no command names stays as it is, live or archived, whatever is done to its row |
| Delivered.StepKeepsDelivered | apps/desktop/src-tauri/src/lib.rs:4410-4449 | one command that does not name a delivered event leaves it as it is, or archives it |
| Delivered.StepKeepsMarks | apps/desktop/src/services/tauriSyncService.ts:1307-1316 | every command keeps the row of a delivered event marked as synced, if status writes mark rows first |
| Delivered.DeliveredPlusOpen | apps/desktop/src-tauri/src/lib.rs:4410-4449 | where the events carry the ledger, the delivered deltas and the open ones add up to it at every key |
| Transfers.StatusDeterminesLedger | apps/desktop/src-tauri/src/lib.rs:3683-3745 | in runs that leave transfer rows alone, a transfer's rows net to -q at the source in DISPATCHED, EXCEPTION and RECEIVED, to +q at the destination in RECEIVED and to 0 otherwise |
| Transfers.OwnTransferStep | apps/desktop/src-tauri/src/lib.rs:3918-3987 | each status change records exactly the row that brings the ledger to its new status, the compensation of a cancel included |
| Transfers.TransferStep | apps/desktop/src-tauri/src/lib.rs:3997-4053 | no command changes a transfer's terms; its status changes exactly when the command for one of the six edges is accepted: DRAFT to DISPATCHED, DISPATCHED to EXCEPTION, DISPATCHED or EXCEPTION to RECEIVED, and each of these three to CANCELLED |
| Transfers.ChangesAreBounded | apps/desktop/src-tauri/src/lib.rs:3778-3886 | a transfer makes at most three status changes over any run, and none once received or cancelled |
| Transfers.TransfersConserveGoods | apps/desktop/src-tauri/src/lib.rs:3602-4053 | the transfer commands keep, per product, AVAILABLE stock over all stores plus goods in transit |
| Transfers.GoodsAreConserved | apps/desktop/src-tauri/src/lib.rs:3602-4053 | over any run without pulls the goods of a product, in transit included, change by what went over the counter and by nothing else |
| Transfers.MoveConservesStore | apps/desktop/src-tauri/src/lib.rs:3341-3425 | moving stock between buckets keeps every store's total of every product over all buckets |
| StrictMode.StrictModeIsSafe | apps/desktop/src-tauri/src/lib.rs:2966-2980 | from a non-negative balance every run whose edits and deletes take back no more than there is, with non-negative pulls, keeps it non-negative |
| StrictMode.StrictStep | apps/desktop/src-tauri/src/lib.rs:3180-3199 | one such command keeps each non-negative balance non-negative |
| StrictMode.RewriteEscapesExactly | apps/desktop/src-tauri/src/lib.rs:4377-4395 | an accepted edit or delete turns a non-negative balance negative if and only if the balance is its row's and it takes back more than there is |
| StrictMode.EditEscapesStrictMode | apps/desktop/src-tauri/src/lib.rs:4225-4267 | an edit of any row but a sale is accepted whatever the stock, and breaks strict mode exactly if it fails that check |
| DayBooks.EntriesAgreeWithLedger | apps/desktop/src-tauri/src/lib.rs:512-607 | in every reachable state an entry repeats its row's delta and type in a book of its store, receipts and sales have one, adjustments, returns and damage none |
| DayBooks.StepAgrees | apps/desktop/src-tauri/src/lib.rs:4295-4307 | every command keeps that agreement, edits and deletes included |
| DayBooks.ShopEntry | apps/desktop/src-tauri/src/lib.rs:512-582 | a receipt or sale adds exactly the entry that repeats its row in today's book; a return or adjustment adds none |
| DayBooks.EditEntry | apps/desktop/src-tauri/src/lib.rs:556-582 | an edit brings the entry to the new delta, reference and reason in the book it is in, or adds it to today's if it had none |
| DayBooks.MoveEntry | apps/desktop/src-tauri/src/lib.rs:556-559 | a bucket move adds no entry |
| DayBooks.ClosingMovesWithStock | apps/desktop/src-tauri/src/lib.rs:587-597 | the closing sum starts at zero and moves with the AVAILABLE balances of the store and no others |
| DayBooks.BookClosesAtStock | apps/desktop/src-tauri/src/lib.rs:2887-2898 | right after receive, sell, return, move, adjust or edit the store's book for today closes at the sum of its AVAILABLE balances |
| DayBooks.DeleteClosesExistingBook | apps/desktop/src-tauri/src/lib.rs:4451-4465 | a delete opens no book, and closes today's book of the store at its stock if there is one |
| Snapshots.SnapshotsAreHistory | apps/desktop/src-tauri/src/lib.rs:813-839 | with dates that do not run backwards, the newest snapshot not after a day is the balance that day ended with |
| Snapshots.StepKeepsCurrent | apps/desktop/src-tauri/src/lib.rs:823-839 | after every command the newest snapshot of a key is its live balance and none is dated later |
| Snapshots.BackfillStamps | apps/desktop/src-tauri/src/lib.rs:897-903 | the startup backfill touches no snapshot of another day |
| Snapshots.StartupFillsToday | apps/desktop/src-tauri/src/lib.rs:897-903 | after a startup every balance has a snapshot for today, its own if it had none, and nothing else changed |
| Snapshots.StartupIndexesEveryDay | apps/desktop/src-tauri/src/lib.rs:813-839 | from a startup on, every balance a key has at the end of a later day is found in the index on that day |
| LocalDatabase.LocalDatabase.ReceiveStock | apps/desktop/src-tauri/src/lib.rs:2798-2915 | the command's statements reach exactly the specified state, or its error with nothing changed |
| LocalDatabase.LocalDatabase.SellStock | apps/desktop/src-tauri/src/lib.rs:2945-3085 | the same for a sale, with the stock check and the receipt number check |
| LocalDatabase.LocalDatabase.ReturnStock | apps/desktop/src-tauri/src/lib.rs:3157-3300 | the same for returns, in and out |
| LocalDatabase.LocalDatabase.MoveStockBucket | apps/desktop/src-tauri/src/lib.rs:3315-3510 | the same for the two rows of a bucket move |
| LocalDatabase.LocalDatabase.AdjustStock | apps/desktop/src-tauri/src/lib.rs:4056-4180 | the same for an adjustment |
| LocalDatabase.LocalDatabase.UpdateTransaction | apps/desktop/src-tauri/src/lib.rs:4190-4330 | the same for an edit: row, balance difference, event and day book |
| LocalDatabase.LocalDatabase.DeleteTransaction | apps/desktop/src-tauri/src/lib.rs:4343-4468 | the same for a delete: balance, entry, row, void or rejected event, closing balance |
| LocalDatabase.LocalDatabase.DispatchTransfer | apps/desktop/src-tauri/src/lib.rs:3653-3770 | the same for a dispatch |
| LocalDatabase.LocalDatabase.ReceiveTransfer | apps/desktop/src-tauri/src/lib.rs:3778-3880 | the same for receiving a transfer |
| LocalDatabase.LocalDatabase.CancelTransfer | apps/desktop/src-tauri/src/lib.rs:3888-3990 | the same for a cancellation, with its compensating row |
| LocalDatabase.LocalDatabase.UpdateOutboxEventStatuses | apps/desktop/src-tauri/src/lib.rs:4800-4885 | the staged loop commits all updates or none |
| LocalDatabase.LocalDatabase.GetPendingOutboxEvents | apps/desktop/src-tauri/src/lib.rs:4533-4664 | a fetch resets statuses row by row and returns a batch of the reset table: only PENDING rows and RETRYABLE_ERROR rows that are due, and all of them if there is room |
| LocalDatabase.LocalDatabase.CleanupExpiredOutboxEvents | apps/desktop/src-tauri/src/lib.rs:4898-4915 | a row is gone exactly if its status is settled and it is older than the window, at least a day; every other row is unchanged, and the number of rows gone is returned |
| LocalDatabase.LocalDatabase.BackfillDailyStockSnapshot | apps/desktop/src-tauri/src/lib.rs:897-903 | the row-by-row INSERT OR IGNORE reaches the filled snapshot table |
| LocalDatabase.LocalDatabase.SumAvailable | apps/desktop/src-tauri/src/lib.rs:587-597 | the closing balance is the sum of the store's AVAILABLE rows, in any row order |
| LocalDatabase.LocalDatabase.EnqueueProductUpsert | apps/desktop/src-tauri/src/lib.rs:2290-2376 | a product edit coalesces into the base event, or queues a follow-up while that event is SENDING |
| ProductEdits.DrainEndsAtLocalRow | apps/desktop/src-tauri/src/lib.rs:2290-2376 | after any interleaving of edits, fetches and pushes, delivering a product's remaining events in created_at order ends at its local row, given that each edit met no other open event of its second with another snapshot |
| ProductEdits.RunKeepsSound | apps/desktop/src/services/tauriSyncService.ts:1150-1160 | over every such run each newest open event of a product is its local row, or with none open the server has it, and nothing in flight is newer than anything waiting |
| ProductEdits.EditIsDeliveredLast | apps/desktop/src-tauri/src/lib.rs:2290-2376 | every created_at order delivers an edit last if and only if no other open event of the product shares its second and holds another snapshot |
| ProductEdits.SameSecondEditCanLose | apps/desktop/src-tauri/src/lib.rs:4630-4639 | with two edits in one second the query may return them so that the older one is delivered last |
| PushOrder.SortIsOrderedPermutation | apps/desktop/src/services/tauriSyncService.ts:1499-1509 | the sorted batch is a permutation of the batch, ordered by priority, time and id |
| PushOrder.OrderMeans | apps/desktop/src/services/tauriSyncService.ts:1473-1509 | in the sorted batch counts come before inflows, inflows before outflows, unlisted types last, and within a group the earlier movement first |
| PushOrder.SortIsStable | apps/desktop/src/services/tauriSyncService.ts:1499-1509 | items the comparator does not tell apart stay in batch order |
| PushOrder.OrderIsUnique | apps/desktop/src/services/tauriSyncService.ts:1499-1509 | where the comparator tells all items apart there is only one such order, so any sort gives it |
| PushOrder.SortKeepsTotals | apps/desktop/src/services/tauriSyncService.ts:1499-1509 | sorting changes no key's total |
| PushOrder.PrefixesStayNonNegative | apps/desktop/src/services/tauriSyncService.ts:1473-1481 | for each key whose own inflows are positive and outflows negative, if it starts and ends at zero or more it never dips below in push order, whatever the batch holds for other keys |
| PushOrder.PushNeverDipsExactly | apps/desktop/src/services/tauriSyncService.ts:1499-1509 | in push order a key never dips below zero if and only if it is not below zero at the start, after the whole batch, and just before each item that raises it |
| PushOrder.CompensationComesLate | apps/desktop/src-tauri/src/lib.rs:3918-3957 | an instance: the positive outflow-type row of a cancelled transfer is pushed after the sale of the goods it restored |
| PushSigns.RecordedSigns | apps/desktop/src/services/tauriSyncService.ts:1473-1481 | an accepted command of one movement records a row the ordering theorem covers, except exactly returns to a supplier, negative adjustments and cancelled dispatches |
| PushSigns.MoveSigns | apps/desktop/src-tauri/src/lib.rs:3363-3425 | of the two rows of a bucket move only the one that takes stock is covered |
| PushSigns.EditedSigns | apps/desktop/src-tauri/src/lib.rs:4269-4293 | an edit queues a covered row exactly if the new delta keeps to the sign of the row's type |
| PushSigns.VoidSigns | apps/desktop/src-tauri/src/lib.rs:4410-4436 | the void event of a deleted row is always covered |
| Delivery.HandledDrops | apps/desktop/src-tauri/src/lib.rs:4838-4855 | an event a pass takes on has fewer attempts left before the horizon, counted with its own backoff, once it is answered or given up |
| Delivery.PassDrops | apps/desktop/src/services/tauriSyncService.ts:1301-1342 | a pass never lets an event be tried more often before the horizon, and uses attempts up if any event leaves SENDING |
| Delivery.PassesWithin | apps/desktop/src-tauri/src/lib.rs:4702-4711 | an event's attempts reach past a horizon before its delay collapses exactly if the horizon is nearer than the delays it has left |
| Delivery.FreshEventFits | apps/desktop/src-tauri/src/lib.rs:4702-4711 | for an event without retries that is any horizon less than 199515 seconds away |
| Delivery.LateRetriesNeverRest | apps/desktop/src-tauri/src/lib.rs:4838-4843 | an event put off is eligible again at once exactly if it already had 64 retries, in a release build |
| PushPass.Split | apps/desktop/src/services/tauriSyncService.ts:1154-1173 | every fetched row becomes exactly one item, product update or unreadable row, and an item repeats its payload column by column |
| Delivery.PushedMovementEnds | apps/desktop/src/services/tauriSyncService.ts:1225-1301 | after an answered push a movement is SYNCED if accepted, RETRYABLE_ERROR with its backoff if it has no receipt or was refused without a validation message, and PERMANENT_REJECTION if refused with one, with the error to match |
| Delivery.DeferredArePassing | apps/desktop/src/services/tauriSyncService.ts:1268-1273 | the refusals that count as retries are those without a validation message |
| Delivery.RefusedMeans | apps/desktop/src/services/tauriSyncService.ts:1387-1392 | a run is partial exactly on a receipt that says no |
| PushPass.ReadReceipts | apps/desktop/src/services/tauriSyncService.ts:1225-1301 | each movement earns the status and error its receipt, or the lack of one, says; missing receipts and refusals are counted exactly, and the retry count is the number of refusals that may pass, up to the limit |
| PushTurn.PushBatch | apps/desktop/src/services/tauriSyncService.ts:1194-1342 | one push from its receipts, or its failure, to the table: every pushed event takes the status its receipt gives it, products are SYNCED, other rows are untouched; failures, refusals and the retry count are as the answer says |
| PushPass.GivenUpPass | apps/desktop/src/services/tauriSyncService.ts:1331-1341 | after the last failure the movements are put off with backoff, the products stay SENDING |
| SyncRun.TriggerSync | apps/desktop/src/services/tauriSyncService.ts:1118-1398 | a run of any length is a chain of turns, each a fetch from the table the one before left and, if anything parses, one request answered by the server; it is cut exactly where the caller has aborted. It pulls if and only if no push failed and every movement sent has a receipt; then, unless cut, and with a batch size up to 500 or no more than 500 open events, every event eligible at the start was sent or marked unreadable; every fetched event shows the answer to the last request that carried it, and failed pushes are retried exactly as often as allowed. It does end, for every server, if the clock stays below a horizon no event's retries can outlast |
| PushTurn.TakeTurn | apps/desktop/src/services/tauriSyncService.ts:1131-1343 | one turn: the batch, its request in push order, the server's answer, the table that follows from it, and the loop variables |
| SyncRun.PullFollowsAnswers | apps/desktop/src/services/tauriSyncService.ts:1359-1385 | when a run pulls, the server has answered a request with every event that was ready at the start, and sent a receipt for it if it is a movement |
| SyncAccounts.TurnTies | apps/desktop/src/services/tauriSyncService.ts:1225-1235 | a turn keeps every request tied to the events it carried, and every fate to its last request |
| SyncAccounts.CleanRunSettles | apps/desktop/src/services/tauriSyncService.ts:1359-1385 | when a run pulls, nothing is SENDING (unless it was aborted before its first fetch) and each movement sent has the status and error its receipt earned it |
| SyncAccounts.SuccessMeansDelivered | apps/desktop/src/services/tauriSyncService.ts:1387-1395 | a run that ends as a success has an accepted receipt for every readable movement it fetched, and every readable event is SYNCED |
| SyncRun.RunHolds | apps/desktop/src/services/tauriSyncService.ts:1131-1343 | what every run keeps, turn by turn: each logged answer is the server's to that request, each request is in push order and holds fetched events as queued, each event's fate names the last request with it, and the accounts, the retry bound and the report agree with the log |
| SyncAccounts.FailingRunLength | apps/desktop/src/services/tauriSyncService.ts:1321-1342 | a run in which every request fails gives up after its first request and as many more as it may retry |
| SyncAccounts.AnswerResetsCount | apps/desktop/src/services/tauriSyncService.ts:1209-1275 | an answer starts the retry count afresh with its refusals that may pass, up to the limit |
| PushTurn.TurnUsesWork | apps/desktop/src/services/tauriSyncService.ts:1131-1343 | a turn after which the loop goes on leaves fewer attempts, or as many and less of the retry budget |
| SyncAccounts.BatchIsComplete | apps/desktop/src-tauri/src/lib.rs:4630-4662 | a fetch misses no eligible event if it returns fewer rows than its limit or there are no more open events than that |
| SyncRun.OversizedBatchForgets | apps/desktop/src-tauri/src/lib.rs:4541 | with a batch size above 500 a run that pulls leaves events unsent whenever more than 500 were ready |
| SyncRun.OversizedBatchExactly | apps/desktop/src-tauri/src/lib.rs:4541 | where every open event can be read and is due, such a run takes all of them on if and only if there are at most 500 |
| PullApply.ApplyTwice | apps/desktop/src-tauri/src/lib.rs:5264-5442 | applying any snapshot twice leaves what applying it once does |
| PullApply.ApplyAgainSucceeds | apps/desktop/src-tauri/src/lib.rs:5330-5415 | a snapshot without repeated ids can be applied again and changes nothing |
| PullApply.RepeatsMayFailTheSecondTime | apps/desktop/src-tauri/src/lib.rs:5330-5370 | with repeated ids the second application may fail on the unique sku index |
| PullApply.AppliedRowByRow | apps/desktop/src-tauri/src/lib.rs:5330-5404 | a list changes each row by that row's own records, in order |
| PullApply.RecordColumns | apps/desktop/src-tauri/src/lib.rs:5330-5404 | a held-back placeholder sets exactly the two status columns; any other record sets every column but the creation time, or fails exactly if another row has its code |
| PullApply.ListColumns | apps/desktop/src-tauri/src/lib.rs:5283-5313 | after a list a row has the descriptive columns of its last record that was not held back, the status columns of its last record and the creation time it had or first got |
| PullApply.PlaceholdersAre | apps/desktop/src-tauri/src/lib.rs:5005-5008 | what a placeholder is, by the texts its sku and name start with |
| PullApply.AppliedBalancesHaveParents | apps/desktop/src-tauri/src/lib.rs:733-741 | an applied snapshot has a product and a store row for each balance, and one is refused exactly for a used code or a missing parent |
| PullApply.HealedStoreKeepsItsId | apps/desktop/src-tauri/src/lib.rs:5148-5195 | the single-row command heals the local store with the same code in place |
| PullApply.RowIdempotent | apps/desktop/src-tauri/src/lib.rs:5330-5404 | a second application of a list, repeats and placeholders included, changes no row |
| PullApply.NameFollowsAuthority | apps/desktop/src-tauri/src/lib.rs:5330-5370 | a real name becomes that of the last real record or stays; it ends as a placeholder's if and only if that record has a placeholder's name |
| PullApply.StoresKeepRealNames | apps/desktop/src-tauri/src/lib.rs:5372-5404 | for stores that exception cannot occur |
| PullApply.MiscodedRecordLosesName | apps/desktop/src-tauri/src/lib.rs:5005-5008 | an instance of the exception for products |
| PullApply.SnapshotKeepsRealNames | apps/desktop/src-tauri/src/lib.rs:5264-5442 | the same for whole snapshots; one that fails changes nothing |
| PullApply.BatchMatchesSingle | apps/desktop/src-tauri/src/lib.rs:5103-5220 | the batch does to a row what the single-row command does, except for a local row with a real sku and a placeholder's name and for a store that arrives under another id |
| PullApply.KeepsUniqueCodes | apps/desktop/src-tauri/src/lib.rs:723 | no two rows come to share a code, and no row disappears |
| PullApply.PullClosedForm | apps/desktop/src-tauri/src/lib.rs:5406-5415 | the pulled balances are the old ones overlaid with the last value of each key, with today's snapshots to match |
| PullApply.SyncTarget.ApplySyncPull | apps/desktop/src-tauri/src/lib.rs:5264-5442 | the whole snapshot is applied or nothing changes |
| PullApply.SyncTarget.UpsertRows | apps/desktop/src-tauri/src/lib.rs:5330-5404 | the statement loop reaches the specified rows or fails where they do not exist |
| BalanceCache.CacheKeyIsInjective | apps/desktop/src/services/tauriTransactionService.ts:69-71 | cache keys are distinct for distinct balances as long as store ids hold no colon |
| BalanceCache.ColonsCollide | apps/desktop/src/services/tauriTransactionService.ts:69-71 | an instance of a collision with a colon in a store id |
| BalanceCache.ReadsAreExact | apps/desktop/src/services/tauriTransactionService.ts:280-362 | a read returns the current balance in every run in which each write that does not clear the cache is followed by one that does |
| BalanceCache.ReadsAreRecent | apps/desktop/src/services/tauriTransactionService.ts:73-82 | whoever writes the table, a read returns a quantity the table held within the last 30 seconds |
| BalanceCache.SecondReadHits | apps/desktop/src/services/tauriTransactionService.ts:73-86 | a read that had to ask the table answers every read of the next 30 seconds from the cache, and none after |
| BalanceCache.OtherWriterLeavesStaleRead | apps/desktop/src/services/tauriTransferService.ts:58-145 | after a write that does not clear the cache a fresh entry is right exactly if the write left that balance alone |
| BalanceCache.DispatchLeavesStaleRead | apps/desktop/src-tauri/src/lib.rs:3683-3745 | an instance: after a dispatch a fresh entry answers with the balance before it, more than there is by the transfer's quantity |
| BalanceCache.BalanceService.GetStockBalance | apps/desktop/src/services/tauriTransactionService.ts:280-362 | what a read answers and what it leaves in the cache |
| BalanceCache.BalanceService.GetStockBalancesForStore | apps/desktop/src/services/tauriTransactionService.ts:253-274 | a store read returns its AVAILABLE rows and primes the cache with them |
| BalanceCache.BalanceService.ReadBalanceCache | apps/desktop/src/services/tauriTransactionService.ts:73-82 | a fresh entry is returned, an expired one deleted |
| StoreQueue.NothingLostNoWakeupLost | apps/desktop/src/services/tauriStoreService.ts:83-160 | over every interleaving each push is delivered, under way, in the batch or in the queue, exactly once, and a non-empty queue has a cycle active or a timer armed |
| StoreQueue.CycleAdvances | apps/desktop/src/services/tauriStoreService.ts:108-139 | each answer or elapsed wait brings a cycle nearer to its end and no other event sets it back |
| StoreQueue.FailingItemComesBack | apps/desktop/src/services/tauriStoreService.ts:109-140 | a failing queued request is fetched three times in its first cycle, twice in its second and once in each later one, and comes back each time |
| StoreQueue.FailingPushIsQueued | apps/desktop/src/services/tauriStoreService.ts:172-208 | a failing direct push is fetched four times and then queued with two retries |
| StoreQueue.QueueWakesUp | apps/desktop/src/services/tauriStoreService.ts:151-160 | the timer, which is spent by it, or going online makes all that is queued the next batch, in order |
| StoreQueue.HealthyServerDrains | apps/desktop/src/services/tauriStoreService.ts:141-160 | from every reachable state, waits included, once the server answers, the rest of the cycle and one timer deliver everything queued, in order |
| StoreQueue.BatchIsServed | apps/desktop/src/services/tauriStoreService.ts:98-149 | a cycle the server answers delivers its batch in order and arms the timer if the queue has filled |
| StoreQueue.PushQueue.ItemAnswered | apps/desktop/src/services/tauriStoreService.ts:109-149 | an answer to the processing call delivers, waits or requeues with one retry less, and ends the cycle with a timer if needed |
| StoreQueue.PushQueue.PushAnswered | apps/desktop/src/services/tauriStoreService.ts:172-208 | a direct push is delivered, waits, or after its last failure is queued and processing kicked off |
| StoreQueue.PushQueue.ProcessPushQueue | apps/desktop/src/services/tauriStoreService.ts:98-104 | processing takes the whole queue, unless it is active already or there is nothing to do |

## Left out

- Mid-command crashes and the order of a command's statements: only receiving and selling run in one SQL transaction, so a crash inside another command is outside the model.
- Two sync runs at once: the in-progress flag is tested and set on different sides of an await; one run at a time is assumed.
- Edits of a transaction while its event is SENDING are not excluded in the ledger theorems, but what the server makes of the earlier receipt is not modelled.
- SyncRun.TriggerSync: without force, and with status writes that succeed; a forced fetch reopens rejected events on every call, so its loop need not end. The sync_status writes to ledger rows, the catalogue push, optimistic updates and token lookup are not part of it.
- SyncRun.TriggerSync: that the loop ends is stated for clocks below a horizon. With 64 retries the wrapped delay is zero, and a server that keeps refusing could keep the loop going, so the horizon is one no open event's retries outlast: 55 hours away for an event without retries, less for one that has failed before. Runs that are known to end need no horizon.
- SyncRun.OversizedBatchForgets: with more than 500 open events of which no more than 500 are ready at the start, what is left over depends on which become due by the next fetch, and is not stated.
- Delivered.DeliveredStaysDelivered: the two status writes after a push run side by side in the source; the rows are taken to be marked first.
- OutboxLedger.OutboxCarriesLedger: runs with forced fetches, server rejections, or archived rows that are edited later are excluded, as there the events do not carry the ledger.
- Projection.ProjectionEqualsLedger: balance rows are identified by store, product and bucket; their own ids are not modelled, so a clash of ids is not either.
- StrictMode.StrictModeIsSafe: for edits and deletes it assumes the check that the code does not make.
- DayBooks.EntriesAgreeWithLedger: day-book writes are taken to succeed; the source ignores their errors. A book is kept under its store and date, so that there is one each is structural.
- ProductEdits.DrainEndsAtLocalRow: fetching and marking SENDING are one step, and an edit that shares its second with another open event of the product and a different snapshot is excluded, as it may lose.
- Undo.DeletedRowLeavesNoTrace: a stock command that only one of the two runs can accept, such as a sale of the received goods, makes them different runs and is excluded.
- PullApply.SyncTarget.ApplySyncPull: the counts it returns are not modelled; descriptive columns that are copied together are one column.
- BalanceCache.ReadsAreExact: for a sequential client with store ids free of colons; a database read that fails is not modelled.
- StoreQueue.NothingLostNoWakeupLost: a push whose answer is lost counts as not delivered, as the service treats it; what the server did with it is open.
- Widths: quantities are mathematical integers instead of i32; only the backoff keeps machine arithmetic. A debug build panics where a release build wraps.
- Columns that do no work here: user, device, reason code and purchase order in event payloads, free-text transfer notes, transfer and day-book id formats, opening balances; the reference text of an adjustment is passed in. White space is ASCII.
- Foreign-key seeding, schema bootstrap, restore, whole-database wipes, backup files, users, catalogue search, dashboard queries and all views.
- The repair of legacy TRANSFER payloads in a forced fetch.
- HTTP, paging of the pull, the last-sync cursor's completeness and server ingestion: the server is an arbitrary function.
