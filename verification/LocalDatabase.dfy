/** The commands as they run: statement by statement on the tables, with early returns on refusals. */
module LocalDatabase {
  import opened Types
  import opened Sums
  import opened Outbox
  import opened Database

  /** The command ended as `reply` says: its state and no error, or its error and no change. */
  ghost predicate Answered(before: Db, reply: Reply, after: Db, error: Option<Error>) {
    match reply
    case Ok(db) => error == None && after == db
    case Err(e) => error == Some(e) && after == before
  }

  class LocalDatabase {
    var txns: map<string, TxnRow>
    var balances: map<Key, int>
    var outbox: Table
    var transfers: map<string, Transfer>
    var books: map<BookKey, int>
    var entries: map<string, Entry>
    var snapshots: map<SnapKey, int>

    /** A fresh database. */
    constructor ()
      ensures State() == Db(map[], map[], map[], map[], map[], map[], map[])
    {
      txns, balances, outbox, transfers := map[], map[], map[], map[];
      books, entries, snapshots := map[], map[], map[];
    }

    function State(): Db
      reads this
    {
      Db(txns, balances, outbox, transfers, books, entries, snapshots)
    }

    // -------------------------------------------------------------- statements

    /** The UNIQUE constraints on transaction_id and event_id. */
    predicate IdsFree(id: string)
      reads this
      ensures IdsFree(id) == IsFresh(State(), id)
    {
      id !in txns && TxnEvent(id) !in outbox
    }

    method InsertTransaction(id: string, row: TxnRow)
      modifies this`txns
      ensures txns == old(txns)[id := row]
    {
      txns := txns[id := row];
    }

    /** The upsert of a balance and the snapshot trigger it fires. */
    method AddToBalance(now: Time, k: Key, delta: int)
      modifies this`balances, this`snapshots
      ensures balances == Added(old(balances), k, delta)
      ensures snapshots == Stamped(old(State()), now, k, delta)
    {
      balances := balances[k := Quantity(balances, k) + delta];
      snapshots := snapshots[SnapKey(k, Day(now)) := balances[k]];
    }

    method QueueMovement(now: Time, id: string, row: TxnRow)
      modifies this`outbox
      ensures outbox == old(outbox)[TxnEvent(id) := NewEvent(PayloadOf(id, row, now), now)]
    {
      outbox := outbox[TxnEvent(id) := NewEvent(PayloadOf(id, row, now), now)];
    }

    /** The three statements every movement is made of. */
    method RecordMovement(now: Time, id: string, row: TxnRow)
      modifies this`txns, this`balances, this`snapshots, this`outbox
      ensures State() == Record(old(State()), now, id, row)
    {
      InsertTransaction(id, row);
      AddToBalance(now, row.key, row.delta);
      QueueMovement(now, id, row);
    }

    /** SELECT SUM(quantity) over the AVAILABLE rows of a store. */
    method SumAvailable(store: string) returns (total: int)
      ensures total == StoreTotal(balances, store)
    {
      total := 0;
      var rest := balances;
      while rest != map[]
        invariant total + StoreTotal(rest, store) == StoreTotal(balances, store)
        decreases |rest|
      {
        var k :| k in rest;
        if k.store == store && k.bucket == Available {
          total := total + rest[k];
        }
        WeighRemove(rest, k, AtStore(store));
        rest := rest - {k};
      }
    }

    /** Gets or creates the book and closes it at the store's stock. */
    method CloseBook(book: BookKey)
      modifies this`books
      ensures books == old(books)[book := StoreTotal(balances, book.store)]
    {
      if book !in books {
        books := books[book := 0];
      }
      var closing := SumAvailable(book.store);
      books := books[book := closing];
    }

    /** upsert_day_book_entry. */
    method PostDayBookEntry(now: Time, id: string, row: TxnRow)
      modifies this`books, this`entries
      ensures State() == PostDayBook(old(State()), now, id, row)
    {
      var book := BookKey(row.key.store, Day(now));
      if !IsHidden(row.movement) {
        if id in entries {
          entries := entries[id := entries[id].(delta := row.delta, reference := row.reference, reason := row.reason)];
        } else {
          entries := entries[id := Entry(book, row.movement, row.delta, row.key.bucket, row.reference, row.reason)];
        }
      }
      CloseBook(book);
    }

    // -------------------------------------------------------------- stock commands

    method ReceiveStock(now: Time, id: string, store: string, product: string, quantity: int,
                        reference: Option<string>, supplier: Option<string>)
      returns (error: Option<Error>)
      modifies this
      ensures Answered(old(State()),
                       TryReceive(old(State()), now, Receive(id, store, product, quantity, reference, supplier)),
                       State(), error)
    {
      if quantity <= 0 {
        return Some(BadQuantity);
      }
      if !IdsFree(id) {
        return Some(IdTaken);
      }
      var k := Key(store, product, Available);
      var row := Row(k, Receipt, quantity, Note(reference), Note(supplier));
      RecordMovement(now, id, row);
      PostDayBookEntry(now, id, row);
      return None;
    }

    method SellStock(now: Time, id: string, store: string, product: string, quantity: int, reference: Option<string>)
      returns (error: Option<Error>)
      modifies this
      ensures Answered(old(State()), TrySell(old(State()), now, Sell(id, store, product, quantity, reference)),
                       State(), error)
    {
      if quantity <= 0 {
        return Some(BadQuantity);
      }
      if !HasText(reference) {
        return Some(ReceiptNumberRequired);
      }
      var k := Key(store, product, Available);
      var available := Quantity(balances, k);
      if quantity > available {
        return Some(InsufficientStock(available));
      }
      if !IdsFree(id) {
        return Some(IdTaken);
      }
      var row := Row(k, Sale, -quantity, Note(reference), None);
      RecordMovement(now, id, row);
      PostDayBookEntry(now, id, row);
      return None;
    }

    method ReturnStock(now: Time, id: string, store: string, product: string, kind: Option<ReturnKind>,
                       bucket: Option<Bucket>, quantity: int, reference: Option<string>, reason: Option<string>)
      returns (error: Option<Error>)
      modifies this
      ensures Answered(old(State()),
                       TryReturn(old(State()), now,
                                 Command.ReturnStock(id, store, product, kind, bucket, quantity, reference, reason)),
                       State(), error)
    {
      if quantity <= 0 {
        return Some(BadQuantity);
      }
      if kind == None {
        return Some(BadReturnType);
      }
      if bucket == None {
        return Some(BadBucket);
      }
      var k := Key(store, product, bucket.value);
      var delta := quantity;
      if kind.value == ToSupplier {
        var current := Quantity(balances, k);
        if quantity > current {
          return Some(InsufficientStock(current));
        }
        delta := -quantity;
      }
      if !IdsFree(id) {
        return Some(IdTaken);
      }
      var row := Row(k, Return, delta, Note(reference), Note(reason));
      RecordMovement(now, id, row);
      PostDayBookEntry(now, id, row);
      return None;
    }

    method MoveStockBucket(now: Time, outId: string, inId: string, store: string, product: string,
                           from: Option<Bucket>, to: Option<Bucket>, quantity: int, note: string)
      returns (error: Option<Error>)
      modifies this
      ensures Answered(old(State()),
                       TryMove(old(State()), now, MoveBucket(outId, inId, store, product, from, to, quantity, note)),
                       State(), error)
    {
      if quantity <= 0 {
        return Some(BadQuantity);
      }
      if IsBlank(note) {
        return Some(ReasonRequired);
      }
      if !IsMovable(from) || !IsMovable(to) {
        return Some(BadBucket);
      }
      if from == to {
        return Some(SameBucket);
      }
      var source, target := Key(store, product, from.value), Key(store, product, to.value);
      var current := Quantity(balances, source);
      if quantity > current {
        return Some(InsufficientStock(current));
      }
      if !IdsFree(outId) || !IdsFree(inId) || outId == inId {
        return Some(IdTaken);
      }
      var outRow := Row(source, Damage, -quantity, None, Some(Given(note)));
      var inRow := Row(target, Damage, quantity, None, Some(Given(note)));
      RecordMovement(now, outId, outRow);
      RecordMovement(now, inId, inRow);
      PostDayBookEntry(now, outId, outRow);
      PostDayBookEntry(now, inId, inRow);
      return None;
    }

    method AdjustStock(now: Time, id: string, store: string, product: string, change: int, note: string,
                       countReference: string)
      returns (error: Option<Error>)
      modifies this
      ensures Answered(old(State()),
                       TryAdjust(old(State()), now, Adjust(id, store, product, change, note, countReference)),
                       State(), error)
    {
      if IsBlank(note) {
        return Some(ReasonRequired);
      }
      var k := Key(store, product, Available);
      if change < 0 {
        var newBalance := Quantity(balances, k) + change;
        if newBalance < 0 {
          return Some(WouldGoNegative(newBalance));
        }
      }
      if !IdsFree(id) {
        return Some(IdTaken);
      }
      var row := Row(k, Adjustment, change, Some(Given(countReference)), Some(Given(note)));
      RecordMovement(now, id, row);
      PostDayBookEntry(now, id, row);
      return None;
    }

    /** The event of an edited row, if it is still there. */
    method RestateEvent(now: Time, id: string, row: TxnRow)
      modifies this`outbox
      ensures outbox == RewriteEvent(old(outbox), now, id, row)
    {
      if TxnEvent(id) in outbox {
        outbox := outbox[TxnEvent(id) := outbox[TxnEvent(id)].(
          payload := PayloadOf(id, row.(transfer := None), now), status := Pending, retries := 0, error := None)];
      }
    }

    /** The row, its balance and its event, brought to the edited values. */
    method RewriteRow(now: Time, id: string, row: TxnRow, diff: int)
      requires id in txns && row.key == txns[id].key && diff == row.delta - txns[id].delta
      modifies this
      ensures State() == Rewrite(old(State()), now, id, row)
    {
      txns := txns[id := row];
      if diff != 0 {
        AddToBalance(now, row.key, diff);
      }
      RestateEvent(now, id, row);
    }

    method UpdateTransaction(now: Time, id: string, change: int, reference: Option<string>, reason: Option<string>)
      returns (error: Option<Error>)
      modifies this
      ensures Answered(old(State()), TryEdit(old(State()), now, Edit(id, change, reference, reason)), State(), error)
    {
      if id !in txns {
        return Some(TransactionNotFound);
      }
      var was := txns[id];
      var diff := change - was.delta;
      if was.movement == Sale && !HasText(reference) {
        return Some(ReceiptNumberRequired);
      }
      var row := was.(delta := change, reference := Note(reference), reason := Note(reason));
      RewriteRow(now, id, row, diff);
      PostDayBookEntry(now, id, row);
      return None;
    }

    method DeleteTransaction(now: Time, id: string) returns (error: Option<Error>)
      modifies this
      ensures Answered(old(State()), TryDelete(old(State()), now, Delete(id)), State(), error)
    {
      if id !in txns {
        return None;
      }
      var row := txns[id];
      if IsOnServer(row) && VoidEvent(id) in outbox {
        return Some(IdTaken);
      }
      AddToBalance(now, row.key, -row.delta);
      entries := entries - {id};
      txns := txns - {id};
      if IsOnServer(row) {
        outbox := outbox[VoidEvent(id) := NewEvent(VoidPayload(id, row, now), now)];
      } else if TxnEvent(id) in outbox {
        outbox := outbox[TxnEvent(id) := outbox[TxnEvent(id)].(status := Rejected, error := Some(DeletedBeforeSync))];
      }
      assert State() == Erase(old(State()), now, id);
      var closing := SumAvailable(row.key.store);
      var book := BookKey(row.key.store, Day(now));
      if book in books {
        books := books[book := closing];
      }
      return None;
    }

    // -------------------------------------------------------------- transfers

    method CreateTransfer(id: string, source: string, destination: string, product: string, quantity: int)
      returns (error: Option<Error>)
      modifies this
      ensures Answered(old(State()),
                       TryCreateTransfer(old(State()),
                                         Command.CreateTransfer(id, source, destination, product, quantity)),
                       State(), error)
    {
      if quantity <= 0 {
        return Some(BadQuantity);
      }
      if source == destination {
        return Some(SameStore);
      }
      if id in transfers {
        return Some(IdTaken);
      }
      transfers := transfers[id := Transfer(source, destination, product, quantity, Draft)];
      return None;
    }

    method SetTransferStatus(id: string, status: TransferStatus)
      requires id in transfers
      modifies this`transfers
      ensures transfers == WithStatus(old(State()), id, status).transfers
    {
      transfers := transfers[id := transfers[id].(status := status)];
    }

    method DispatchTransfer(now: Time, transfer: string, id: string) returns (error: Option<Error>)
      modifies this
      ensures Answered(old(State()), TryDispatch(old(State()), now, Dispatch(transfer, id)), State(), error)
    {
      if transfer !in transfers {
        return Some(TransferNotFound);
      }
      var t := transfers[transfer];
      if t.status != Draft {
        return Some(WrongTransferStatus(t.status));
      }
      var k := Key(t.source, t.product, Available);
      var available := Quantity(balances, k);
      if t.quantity > available {
        return Some(InsufficientStock(available));
      }
      if !IdsFree(id) {
        return Some(IdTaken);
      }
      SetTransferStatus(transfer, Dispatched);
      var row := TransferRow(transfer, k, TransferOut, -t.quantity, DispatchOf(transfer), ToStore(t.destination));
      RecordMovement(now, id, row);
      return None;
    }

    method ReceiveTransfer(now: Time, transfer: string, id: string) returns (error: Option<Error>)
      modifies this
      ensures Answered(old(State()), TryReceiveTransfer(old(State()), now, Command.ReceiveTransfer(transfer, id)),
                       State(), error)
    {
      if transfer !in transfers {
        return Some(TransferNotFound);
      }
      var t := transfers[transfer];
      if t.status != Dispatched && t.status != Exception {
        return Some(WrongTransferStatus(t.status));
      }
      if !IdsFree(id) {
        return Some(IdTaken);
      }
      var k := Key(t.destination, t.product, Available);
      SetTransferStatus(transfer, Received);
      var row := TransferRow(transfer, k, TransferIn, t.quantity, ReceiptOf(transfer), FromStore(t.source));
      RecordMovement(now, id, row);
      return None;
    }

    method CancelTransfer(now: Time, transfer: string, id: string) returns (error: Option<Error>)
      modifies this
      ensures Answered(old(State()), TryCancelTransfer(old(State()), now, Command.CancelTransfer(transfer, id)),
                       State(), error)
    {
      if transfer !in transfers {
        return Some(TransferNotFound);
      }
      var t := transfers[transfer];
      if t.status == Received || t.status == Cancelled {
        return Some(WrongTransferStatus(t.status));
      }
      if t.status == Dispatched || t.status == Exception {
        if !IdsFree(id) {
          return Some(IdTaken);
        }
        var k := Key(t.source, t.product, Available);
        var row := TransferRow(transfer, k, TransferOut, t.quantity, CancellationOf(transfer), StockRestored);
        RecordMovement(now, id, row);
      }
      SetTransferStatus(transfer, Cancelled);
      return None;
    }

    method MarkTransferException(transfer: string) returns (error: Option<Error>)
      modifies this
      ensures Answered(old(State()), TryMarkException(old(State()), MarkException(transfer)), State(), error)
    {
      if transfer !in transfers {
        return Some(TransferNotFound);
      }
      var t := transfers[transfer];
      if t.status != Dispatched {
        return Some(WrongTransferStatus(t.status));
      }
      SetTransferStatus(transfer, Exception);
      return None;
    }

    // -------------------------------------------------------------- outbox

    /** enqueue_product_upsert. */
    method EnqueueProductUpsert(now: Time, product: string, snapshot: string, outboxId: string)
      returns (error: Option<Error>)
      modifies this`outbox
      ensures match EnqueueProduct(old(outbox), product, snapshot, outboxId, now)
              case None => error == Some(IdTaken) && outbox == old(outbox)
              case Some(t) => error == None && outbox == t
    {
      var event := NewEvent(ProductSnapshot(product, snapshot), now);
      var base := ProductEvent(product);
      if base in outbox && outbox[base].status == Sending {
        var followUp := ProductFollowUp(product, outboxId);
        if followUp in outbox {
          return Some(IdTaken);
        }
        outbox := outbox[followUp := event];
        return None;
      }
      if base in outbox {
        outbox := outbox[base := outbox[base].(payload := event.payload, status := Pending, retries := 0,
                                               nextAttempt := None, error := None, createdAt := now)];
      } else {
        outbox := outbox[base := event];
      }
      return None;
    }

    /** The UPDATE statements of a fetch, row by row. */
    method ResetStatuses(force: bool)
      modifies this`outbox
      ensures outbox == Reset(old(outbox), force)
    {
      ghost var done := {};
      var rest := outbox.Keys;
      while rest != {}
        invariant outbox.Keys == old(outbox).Keys && done + rest == old(outbox).Keys && done !! rest
        invariant forall id <- rest :: outbox[id] == old(outbox)[id]
        invariant forall id <- done :: outbox[id] == Reset(old(outbox), force)[id]
        decreases rest
      {
        var id :| id in rest;
        var e := outbox[id];
        if e.status == Sending || (force && e.status == Rejected) {
          outbox := outbox[id := e.(status := Pending)];
        }
        if force && outbox[id].status == Retryable {
          outbox := outbox[id := outbox[id].(nextAttempt := None)];
        }
        rest, done := rest - {id}, done + {id};
      }
    }

    /** get_pending_outbox_events: resets statuses, then selects the oldest eligible rows. */
    method GetPendingOutboxEvents(now: Time, limit: int, force: bool) returns (rows: seq<EventId>)
      modifies this`outbox
      ensures outbox == Reset(old(outbox), force)
      ensures IsBatch(outbox, now, BatchLimit(limit), rows)
      ensures forall id <- rows :: id in outbox &&
                (|| outbox[id].status == Pending
                 || (outbox[id].status == Retryable &&
                     (outbox[id].nextAttempt.Some? ==> outbox[id].nextAttempt.value <= now)))
      ensures forall id <- outbox.Keys | id !in rows && |rows| < BatchLimit(limit) ::
                && outbox[id].status != Pending
                && (outbox[id].status == Retryable ==>
                      outbox[id].nextAttempt.Some? && outbox[id].nextAttempt.value > now)
    {
      ResetStatuses(force);
      rows := SelectBatch(outbox, now, BatchLimit(limit));
    }

    /** update_outbox_event_status. */
    method UpdateOutboxEventStatus(u: Update) returns (error: Option<Error>)
      modifies this`outbox
      ensures match SetOne(old(outbox), u)
              case None => error == Some(EventNotFound) && outbox == old(outbox)
              case Some(t) => error == None && outbox == t
    {
      if u.id !in outbox {
        return Some(EventNotFound);
      }
      outbox := outbox[u.id := Transition(outbox[u.id], u)];
      return None;
    }

    /** update_outbox_event_statuses: staged in a transaction and committed as a whole. */
    method UpdateOutboxEventStatuses(us: seq<Update>) returns (error: Option<Error>)
      modifies this`outbox
      ensures (forall u <- us :: u.id in old(outbox)) ==> error == None && outbox == SetEach(old(outbox), us)
      ensures (exists u <- us :: u.id !in old(outbox)) ==> error == Some(EventNotFound) && outbox == old(outbox)
    {
      BatchRefinesSingles(outbox, us);
      var staged := outbox;
      var i := 0;
      while i < |us|
        invariant 0 <= i <= |us|
        invariant outbox == old(outbox)
        invariant SetAll(staged, us[i..]) == SetAll(outbox, us)
      {
        if us[i].id !in staged {
          return Some(EventNotFound);
        }
        staged := staged[us[i].id := Transition(staged[us[i].id], us[i])];
        i := i + 1;
      }
      outbox := staged;
      return None;
    }

    /** update_transaction_sync_statuses: rows that are gone are skipped. */
    method UpdateTransactionSyncStatuses(us: seq<(string, Status)>)
      modifies this`txns
      ensures txns == SetRowStatuses(old(txns), us)
    {
      var i := 0;
      while i < |us|
        invariant 0 <= i <= |us|
        invariant SetRowStatuses(txns, us[i..]) == SetRowStatuses(old(txns), us)
      {
        var (id, status) := us[i];
        if id in txns {
          txns := txns[id := txns[id].(sync := status)];
        }
        i := i + 1;
      }
    }

    /** cleanup_expired_outbox_events: a row is gone exactly if it is settled and older than the window, which
        is a day at least; every other row is as it was, and the rows gone are counted. */
    method CleanupExpiredOutboxEvents(now: Time, days: int) returns (archived: nat)
      modifies this`outbox
      ensures forall id :: id in outbox ==> id in old(outbox) && outbox[id] == old(outbox)[id]
      ensures forall id <- old(outbox).Keys :: id !in outbox <==>
                && old(outbox)[id].status in {Accepted, Synced, Rejected, Review}
                && old(outbox)[id].createdAt + 86_400 * (if days < 1 then 1 else days) < now
      ensures archived == |old(outbox).Keys - outbox.Keys|
      ensures outbox == Keep(old(outbox), Cutoff(now, days))
    {
      var cutoff := Cutoff(now, days);
      archived := 0;
      var rest := outbox.Keys;
      while rest != {}
        invariant rest <= outbox.Keys <= old(outbox).Keys
        invariant forall id <- outbox.Keys :: outbox[id] == old(outbox)[id]
        invariant forall id <- old(outbox).Keys | id !in rest ::
                  id !in outbox <==> IsArchivable(old(outbox)[id], cutoff)
        invariant archived == |old(outbox).Keys - outbox.Keys|
        decreases rest
      {
        var id :| id in rest;
        if IsArchivable(outbox[id], cutoff) {
          assert old(outbox).Keys - (outbox - {id}).Keys == old(outbox).Keys - outbox.Keys + {id};
          outbox, archived := outbox - {id}, archived + 1;
        }
        rest := rest - {id};
      }
    }

    /** backfill_daily_stock_snapshot: INSERT OR IGNORE of today's row for every balance. */
    method BackfillDailyStockSnapshot(now: Time)
      modifies this`snapshots
      ensures State() == Backfill(old(State()), now)
    {
      var done, rest := {}, balances.Keys;
      while rest != {}
        invariant done + rest == balances.Keys
        invariant snapshots == Filled(old(snapshots), balances, done, Day(now))
        decreases rest
      {
        var k :| k in rest;
        FillOne(old(snapshots), balances, done, k, Day(now));
        if SnapKey(k, Day(now)) !in snapshots {
          snapshots := snapshots[SnapKey(k, Day(now)) := balances[k]];
        }
        done, rest := done + {k}, rest - {k};
      }
      assert done == balances.Keys;
    }
  }

  lemma FillOne(before: map<SnapKey, int>, balances: map<Key, int>, done: set<Key>, k: Key, day: int)
    requires k in balances
    ensures var t := Filled(before, balances, done, day);
      Filled(before, balances, done + {k}, day) == if SnapKey(k, day) in t then t else t[SnapKey(k, day) := balances[k]]
  {
  }
}
