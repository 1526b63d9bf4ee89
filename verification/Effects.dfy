/** What each stock command asks of its caller, and the row and event it leaves, column by column. */
module Effects {
  import opened Types
  import opened Outbox
  import opened Database
  import opened Journal

  ghost predicate Accepts(s: Db, now: Time, c: Command) {
    Try(s, now, c).Ok?
  }

  /** The text holds something other than white space. */
  predicate SaysSomething(s: string) {
    exists i :: 0 <= i < |s| && s[i] != ' ' && s[i] != '\t' && s[i] != '\n' && s[i] != '\r'
  }

  predicate IsUnused(s: Db, id: string) {
    TxnEvent(id) !in s.outbox && id !in s.txns
  }

  /** The column holds what the caller gave, or nothing. */
  predicate Quotes(column: Option<Text>, given: Option<string>) {
    match given
    case None => column == None
    case Some(text) => column == Some(Given(text))
  }

  predicate HasColumns(row: TxnRow, key: Key, movement: MovementType, delta: int, transfer: Option<string>) {
    row.key == key && row.movement == movement && row.delta == delta && row.transfer == transfer
  }

  /** The event states the row, is due at once and has never been tried. */
  predicate IsQueued(e: Event, id: string, row: TxnRow, now: Time) {
    && e.payload == Movement(id, row.key, row.movement, row.delta, now, row.transfer, row.reference)
    && e.status == Pending && e.retries == 0 && e.nextAttempt == None && e.error == None && e.createdAt == now
  }

  /** One new unsynced row with its event, and no other change to either table. */
  predicate AddsRow(s: Db, t: Db, id: string, now: Time) {
    && id in t.txns && t.txns == s.txns[id := t.txns[id]] && t.txns[id].sync == Pending
    && TxnEvent(id) in t.outbox && t.outbox == s.outbox[TxnEvent(id) := t.outbox[TxnEvent(id)]]
    && IsQueued(t.outbox[TxnEvent(id)], id, t.txns[id], now)
  }

  // ---------------------------------------------------------------- shop commands

  lemma ReceiveEffect(s: Db, now: Time, c: Command)
    requires c.Receive?
    ensures Accepts(s, now, c) <==> c.quantity > 0 && IsUnused(s, c.id)
    ensures Accepts(s, now, c) ==>
      var t := Step(s, now, c); var row := t.txns[c.id];
      && AddsRow(s, t, c.id, now)
      && HasColumns(row, Key(c.store, c.product, Available), Receipt, c.quantity, None)
      && Quotes(row.reference, c.reference) && Quotes(row.reason, c.supplier)
  {
    assert Try(s, now, c) == TryReceive(s, now, c);
  }

  lemma SellEffect(s: Db, now: Time, c: Command)
    requires c.Sell?
    ensures Accepts(s, now, c) <==>
      && c.quantity > 0 && c.reference.Some? && SaysSomething(c.reference.value)
      && c.quantity <= Quantity(s.balances, Key(c.store, c.product, Available)) && IsUnused(s, c.id)
    ensures Accepts(s, now, c) ==>
      var t := Step(s, now, c); var row := t.txns[c.id];
      && AddsRow(s, t, c.id, now)
      && HasColumns(row, Key(c.store, c.product, Available), Sale, -c.quantity, None)
      && Quotes(row.reference, c.reference) && row.reason == None
  {
    assert Try(s, now, c) == TrySell(s, now, c);
  }

  lemma ReturnEffect(s: Db, now: Time, c: Command)
    requires c.ReturnStock?
    ensures Accepts(s, now, c) <==>
      && c.quantity > 0 && c.kind.Some? && c.bucket.Some? && IsUnused(s, c.id)
      && (c.kind == Some(ToSupplier) ==> c.quantity <= Quantity(s.balances, Key(c.store, c.product, c.bucket.value)))
    ensures Accepts(s, now, c) ==>
      var t := Step(s, now, c); var row := t.txns[c.id];
      && AddsRow(s, t, c.id, now)
      && HasColumns(row, Key(c.store, c.product, c.bucket.value), Return,
                    if c.kind == Some(ToSupplier) then -c.quantity else c.quantity, None)
      && Quotes(row.reference, c.reference) && Quotes(row.reason, c.reason)
  {
    assert Try(s, now, c) == TryReturn(s, now, c);
  }

  lemma AdjustEffect(s: Db, now: Time, c: Command)
    requires c.Adjust?
    ensures Accepts(s, now, c) <==>
      && SaysSomething(c.note) && IsUnused(s, c.id)
      && (c.change < 0 ==> Quantity(s.balances, Key(c.store, c.product, Available)) + c.change >= 0)
    ensures Accepts(s, now, c) ==>
      var t := Step(s, now, c); var row := t.txns[c.id];
      && AddsRow(s, t, c.id, now)
      && HasColumns(row, Key(c.store, c.product, Available), Adjustment, c.change, None)
      && row.reference == Some(Given(c.countReference)) && row.reason == Some(Given(c.note))
  {
    assert Try(s, now, c) == TryAdjust(s, now, c);
  }

  lemma MoveEffect(s: Db, now: Time, c: Command)
    requires c.MoveBucket?
    ensures Accepts(s, now, c) <==>
      && c.quantity > 0 && SaysSomething(c.note)
      && c.from in {Some(Available), Some(Damaged), Some(Quarantine)}
      && c.to in {Some(Available), Some(Damaged), Some(Quarantine)} && c.from != c.to
      && c.quantity <= Quantity(s.balances, Key(c.store, c.product, c.from.value))
      && IsUnused(s, c.outId) && IsUnused(s, c.inId) && c.outId != c.inId
    ensures Accepts(s, now, c) ==>
      var t := Step(s, now, c);
      && c.outId in t.txns && c.inId in t.txns
      && t.txns == s.txns[c.outId := t.txns[c.outId]][c.inId := t.txns[c.inId]]
      && IsLeg(t, c.outId, c, c.from, -c.quantity, now) && IsLeg(t, c.inId, c, c.to, c.quantity, now)
      && t.outbox == s.outbox[TxnEvent(c.outId) := t.outbox[TxnEvent(c.outId)]]
                             [TxnEvent(c.inId) := t.outbox[TxnEvent(c.inId)]]
  {
    assert Try(s, now, c) == TryMove(s, now, c);
  }

  /** One of the two rows of a bucket move, with its event. */
  predicate IsLeg(t: Db, id: string, c: Command, bucket: Option<Bucket>, delta: int, now: Time)
    requires c.MoveBucket?
  {
    && bucket.Some? && id in t.txns && TxnEvent(id) in t.outbox
    && HasColumns(t.txns[id], Key(c.store, c.product, bucket.value), Damage, delta, None)
    && t.txns[id].sync == Pending && t.txns[id].reference == None && t.txns[id].reason == Some(Given(c.note))
    && IsQueued(t.outbox[TxnEvent(id)], id, t.txns[id], now)
  }

  // ---------------------------------------------------------------- edits and deletes

  /** The event of an edited row: restated, due for another first try, with its place in the queue and its
      earliest time unchanged. */
  predicate IsRestated(before: Event, after: Event, id: string, row: TxnRow, now: Time) {
    && after.payload == Movement(id, row.key, row.movement, row.delta, now, None, row.reference)
    && after.status == Pending && after.retries == 0 && after.error == None
    && after.createdAt == before.createdAt && after.nextAttempt == before.nextAttempt
  }

  lemma EditEffect(s: Db, now: Time, c: Command)
    requires c.Edit?
    ensures Accepts(s, now, c) <==>
      c.id in s.txns && (s.txns[c.id].movement == Sale ==> c.reference.Some? && SaysSomething(c.reference.value))
    ensures Accepts(s, now, c) ==>
      var t := Step(s, now, c);
      && c.id in t.txns && t.txns == s.txns[c.id := t.txns[c.id]]
      && HasColumns(t.txns[c.id], s.txns[c.id].key, s.txns[c.id].movement, c.change, s.txns[c.id].transfer)
      && Quotes(t.txns[c.id].reference, c.reference) && Quotes(t.txns[c.id].reason, c.reason)
      && t.txns[c.id].sync == s.txns[c.id].sync
      && (if TxnEvent(c.id) in s.outbox then
            && TxnEvent(c.id) in t.outbox && t.outbox == s.outbox[TxnEvent(c.id) := t.outbox[TxnEvent(c.id)]]
            && IsRestated(s.outbox[TxnEvent(c.id)], t.outbox[TxnEvent(c.id)], c.id, t.txns[c.id], now)
          else t.outbox == s.outbox)
  {
    assert Try(s, now, c) == TryEdit(s, now, c);
  }

  /** The event that takes a row back on the server: typed by its own sign, with the opposite delta. */
  predicate IsVoid(e: Event, id: string, row: TxnRow, now: Time) {
    && e.payload.Movement? && e.payload.txn == id && e.payload.key == row.key && e.payload.delta == 0 - row.delta
    && e.payload.movement == (if e.payload.delta > 0 then Receipt else Sale)
    && e.payload.occurredAt == now && e.payload.transfer == None && e.payload.reference == None
    && e.status == Pending && e.retries == 0 && e.nextAttempt == None && e.error == None && e.createdAt == now
  }

  /** A row the server has is taken back by a void event and its own event is left alone; any other row has its
      own event, if it is there, rejected, and nothing is sent. */
  lemma DeleteEffect(s: Db, now: Time, c: Command)
    requires c.Delete? && c.id in s.txns
    ensures var row, t := s.txns[c.id], Step(s, now, c);
      var served := row.sync == Synced || row.sync == Accepted;
      && (Accepts(s, now, c) <==> !(served && VoidEvent(c.id) in s.outbox))
      && (Accepts(s, now, c) ==>
            && t.txns == s.txns - {c.id} && c.id !in t.entries
            && (if served then
                  && VoidEvent(c.id) in t.outbox && IsVoid(t.outbox[VoidEvent(c.id)], c.id, row, now)
                  && t.outbox == s.outbox[VoidEvent(c.id) := t.outbox[VoidEvent(c.id)]]
                else if TxnEvent(c.id) in s.outbox then
                  t.outbox == s.outbox[TxnEvent(c.id) :=
                    s.outbox[TxnEvent(c.id)].(status := Rejected, error := Some(DeletedBeforeSync))]
                else t.outbox == s.outbox))
  {
    assert Try(s, now, c) == TryDelete(s, now, c);
  }

  // ---------------------------------------------------------------- transfers

  lemma CreateTransferEffect(s: Db, now: Time, c: Command)
    requires c.CreateTransfer?
    ensures Accepts(s, now, c) <==> c.quantity > 0 && c.source != c.destination && c.transfer !in s.transfers
    ensures Accepts(s, now, c) ==>
      Step(s, now, c) == s.(transfers :=
        s.transfers[c.transfer := Transfer(c.source, c.destination, c.product, c.quantity, Draft)])
  {
  }

  lemma DispatchEffect(s: Db, now: Time, c: Command)
    requires c.Dispatch?
    ensures Accepts(s, now, c) <==>
      && c.transfer in s.transfers && s.transfers[c.transfer].status == Draft && IsUnused(s, c.id)
      && var t := s.transfers[c.transfer]; t.quantity <= Quantity(s.balances, Key(t.source, t.product, Available))
    ensures Accepts(s, now, c) ==>
      var t, u := s.transfers[c.transfer], Step(s, now, c); var row := u.txns[c.id];
      && AddsRow(s, u, c.id, now)
      && HasColumns(row, Key(t.source, t.product, Available), TransferOut, -t.quantity, Some(c.transfer))
      && row.reference == Some(DispatchOf(c.transfer)) && row.reason == Some(ToStore(t.destination))
  {
    assert Try(s, now, c) == TryDispatch(s, now, c);
  }

  lemma ReceiveTransferEffect(s: Db, now: Time, c: Command)
    requires c.ReceiveTransfer?
    ensures Accepts(s, now, c) <==>
      c.transfer in s.transfers && s.transfers[c.transfer].status in {Dispatched, Exception} && IsUnused(s, c.id)
    ensures Accepts(s, now, c) ==>
      var t, u := s.transfers[c.transfer], Step(s, now, c); var row := u.txns[c.id];
      && AddsRow(s, u, c.id, now)
      && HasColumns(row, Key(t.destination, t.product, Available), TransferIn, t.quantity, Some(c.transfer))
      && row.reference == Some(ReceiptOf(c.transfer)) && row.reason == Some(FromStore(t.source))
  {
    assert Try(s, now, c) == TryReceiveTransfer(s, now, c);
  }

  lemma CancelTransferEffect(s: Db, now: Time, c: Command)
    requires c.CancelTransfer?
    ensures Accepts(s, now, c) <==>
      && c.transfer in s.transfers
      && (|| s.transfers[c.transfer].status == Draft
          || (s.transfers[c.transfer].status in {Dispatched, Exception} && IsUnused(s, c.id)))
    ensures Accepts(s, now, c) ==>
      var t, u := s.transfers[c.transfer], Step(s, now, c);
      if t.status == Draft then u.txns == s.txns && u.outbox == s.outbox && u.balances == s.balances
      else
        && AddsRow(s, u, c.id, now)
        && HasColumns(u.txns[c.id], Key(t.source, t.product, Available), TransferOut, t.quantity, Some(c.transfer))
        && u.txns[c.id].reference == Some(CancellationOf(c.transfer)) && u.txns[c.id].reason == Some(StockRestored)
  {
    assert Try(s, now, c) == TryCancelTransfer(s, now, c);
  }

  // ---------------------------------------------------------------- sync commands

  /** A fetch puts SENDING rows back to PENDING; a forced one reopens rejected rows too and lets retries go at
      once. Nothing else about any event changes. */
  lemma FetchEffect(s: Db, now: Time, force: bool, id: EventId)
    requires id in s.outbox
    ensures Step(s, now, Fetch(force)) == s.(outbox := Step(s, now, Fetch(force)).outbox)
    ensures Step(s, now, Fetch(force)).outbox.Keys == s.outbox.Keys
    ensures var e, f := s.outbox[id], Step(s, now, Fetch(force)).outbox[id];
      && f.payload == e.payload && f.retries == e.retries && f.createdAt == e.createdAt && f.error == e.error
      && f.status == (if e.status == Sending then Pending
                      else if force && e.status == Rejected then Pending else e.status)
      && f.nextAttempt == (if force && e.status == Retryable then None else e.nextAttempt)
  {
    StepOutbox(s, now, Fetch(force));
  }

  /** A product edit is refused only if it needs a follow-up and its id is taken. Otherwise it leaves one PENDING
      event with the new snapshot, due at once, as the product's base event or behind one that is in flight. */
  lemma SaveProductEffect(s: Db, now: Time, c: Command)
    requires c.SaveProduct?
    ensures var base, followUp := ProductEvent(c.product), ProductFollowUp(c.product, c.outboxId);
      var inFlight := base in s.outbox && s.outbox[base].status == Sending;
      && (Accepts(s, now, c) <==> !(inFlight && followUp in s.outbox))
      && (Accepts(s, now, c) ==>
            Step(s, now, c) == s.(outbox := s.outbox[(if inFlight then followUp else base) :=
              Event(ProductSnapshot(c.product, c.snapshot), Pending, 0, None, now, None)]))
  {
  }

  /** The last status listed for a row. */
  function Listed(us: seq<(string, Status)>, id: string): Option<Status>
    decreases |us|
  {
    if us == [] then None
    else if us[|us| - 1].0 == id then Some(us[|us| - 1].1)
    else Listed(us[..|us| - 1], id)
  }

  lemma {:induction false} StatusesAppend(txns: map<string, TxnRow>, us: seq<(string, Status)>, u: (string, Status))
    ensures SetRowStatuses(txns, us + [u])
            == var t := SetRowStatuses(txns, us); if u.0 in t then t[u.0 := t[u.0].(sync := u.1)] else t
    decreases |us|
  {
    if us == [] {
      assert (us + [u])[1..] == [];
    } else {
      assert (us + [u])[1..] == us[1..] + [u];
      var (id, status) := us[0];
      StatusesAppend(if id in txns then txns[id := txns[id].(sync := status)] else txns, us[1..], u);
    }
  }

  /** Each row takes the last status listed for it, and nothing else of any row changes. */
  lemma {:induction false} RowStatusesEffect(txns: map<string, TxnRow>, us: seq<(string, Status)>, id: string)
    ensures id in SetRowStatuses(txns, us) <==> id in txns
    ensures id in txns ==>
      SetRowStatuses(txns, us)[id]
      == if Listed(us, id).Some? then txns[id].(sync := Listed(us, id).value) else txns[id]
    decreases |us|
  {
    if us != [] {
      var init, last := us[..|us| - 1], us[|us| - 1];
      RowStatusesEffect(txns, init, id);
      StatusesAppend(txns, init, last);
      assert us == init + [last];
    }
  }
}
