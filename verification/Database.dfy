/** The local SQLite tables and, command by command, the state each one leaves. */
module Database {
  import opened Types
  import opened Sums
  import opened Outbox

  // ---------------------------------------------------------------- rows

  /** A row of inventory_transactions. */
  datatype TxnRow = TxnRow(key: Key, movement: MovementType, delta: int, reference: Option<Text>,
                           reason: Option<Text>, transfer: Option<string>, sync: Status)

  datatype TransferStatus = Draft | Dispatched | Exception | Received | Cancelled

  datatype Transfer = Transfer(source: string, destination: string, product: string, quantity: int,
                               status: TransferStatus)

  /** day_books is unique by store and date; the value kept is the closing balance. */
  datatype BookKey = BookKey(store: string, day: int)

  /** A row of day_book_entries, kept under its transaction's id. */
  datatype Entry = Entry(book: BookKey, movement: MovementType, delta: int, bucket: Bucket,
                         reference: Option<Text>, reason: Option<Text>)

  datatype SnapKey = SnapKey(key: Key, day: int)

  datatype Db = Db(
    txns: map<string, TxnRow>,
    balances: map<Key, int>,
    outbox: Table,
    transfers: map<string, Transfer>,
    books: map<BookKey, int>,
    entries: map<string, Entry>,
    snapshots: map<SnapKey, int>)

  /** COALESCE(quantity, 0): a missing balance row reads as zero. */
  function Quantity(balances: map<Key, int>, k: Key): int {
    if k in balances then balances[k] else 0
  }

  // ---------------------------------------------------------------- totals

  ghost function AtStore(store: string): (Key, int) -> int {
    (k: Key, q: int) => if k.store == store && k.bucket == Available then q else 0
  }

  /** The sum of AVAILABLE stock of a store, at which its day book closes. */
  ghost function StoreTotal(balances: map<Key, int>, store: string): int {
    Weigh(balances, AtStore(store))
  }

  // ---------------------------------------------------------------- table writes

  /** Writes one balance and lets the snapshot trigger record today's quantity. */
  function SetBalance(s: Db, now: Time, k: Key, q: int): Db {
    s.(balances := s.balances[k := q], snapshots := s.snapshots[SnapKey(k, Day(now)) := q])
  }

  /** INSERT ... ON CONFLICT DO UPDATE SET quantity = quantity + delta. */
  function Added(balances: map<Key, int>, k: Key, delta: int): map<Key, int> {
    balances[k := Quantity(balances, k) + delta]
  }

  /** The snapshot trigger of that write. */
  function Stamped(s: Db, now: Time, k: Key, delta: int): map<SnapKey, int> {
    s.snapshots[SnapKey(k, Day(now)) := Quantity(s.balances, k) + delta]
  }

  function PayloadOf(id: string, row: TxnRow, now: Time): Payload {
    Movement(id, row.key, row.movement, row.delta, now, row.transfer, row.reference)
  }

  /** One stock movement: ledger row, balance and outbox event. */
  function Record(s: Db, now: Time, id: string, row: TxnRow): Db {
    s.(txns := s.txns[id := row],
       balances := Added(s.balances, row.key, row.delta),
       snapshots := Stamped(s, now, row.key, row.delta),
       outbox := s.outbox[TxnEvent(id) := NewEvent(PayloadOf(id, row, now), now)])
  }

  predicate IsHidden(m: MovementType) {
    m in {Adjustment, Return, Damage}
  }

  /** upsert_day_book_entry for a movement whose balance is already written. */
  ghost function PostDayBook(s: Db, now: Time, id: string, row: TxnRow): Db {
    var book := BookKey(row.key.store, Day(now));
    var entry :=
      if id in s.entries
      then s.entries[id].(delta := row.delta, reference := row.reference, reason := row.reason)
      else Entry(book, row.movement, row.delta, row.key.bucket, row.reference, row.reason);
    s.(books := s.books[book := StoreTotal(s.balances, row.key.store)],
       entries := if IsHidden(row.movement) then s.entries else s.entries[id := entry])
  }

  ghost function RecordAndPost(s: Db, now: Time, id: string, row: TxnRow): Db {
    PostDayBook(Record(s, now, id, row), now, id, row)
  }

  /** The last written value of each listed balance wins. */
  function PullBalances(s: Db, now: Time, rows: seq<(Key, int)>): Db
    decreases |rows|
  {
    if rows == [] then s else PullBalances(SetBalance(s, now, rows[0].0, rows[0].1), now, rows[1..])
  }

  function SetRowStatuses(txns: map<string, TxnRow>, us: seq<(string, Status)>): map<string, TxnRow>
    decreases |us|
  {
    if us == [] then txns
    else
      var (id, status) := us[0];
      SetRowStatuses(if id in txns then txns[id := txns[id].(sync := status)] else txns, us[1..])
  }

  /** The snapshots once the balances of some keys have been filled in for a day that has none of them. */
  function Filled(before: map<SnapKey, int>, balances: map<Key, int>, keys: set<Key>, day: int): map<SnapKey, int> {
    (map k | k in balances && k in keys :: SnapKey(k, day) := balances[k]) + before
  }

  /** backfill_daily_stock_snapshot: today's row for every balance that has none. */
  function Backfill(s: Db, now: Time): Db {
    s.(snapshots := Filled(s.snapshots, s.balances, s.balances.Keys, Day(now)))
  }

  // ---------------------------------------------------------------- commands

  datatype ReturnKind = FromCustomer | ToSupplier

  /** Calls with the ids they generate. `None` for a bucket or return kind is unrecognised text. */
  datatype Command =
    | Receive(id: string, store: string, product: string, quantity: int,
              reference: Option<string>, supplier: Option<string>)
    | Sell(id: string, store: string, product: string, quantity: int, reference: Option<string>)
    | ReturnStock(id: string, store: string, product: string, kind: Option<ReturnKind>,
                  bucket: Option<Bucket>, quantity: int, reference: Option<string>, reason: Option<string>)
    | MoveBucket(outId: string, inId: string, store: string, product: string, from: Option<Bucket>,
                 to: Option<Bucket>, quantity: int, note: string)
    | Adjust(id: string, store: string, product: string, change: int, note: string, countReference: string)
    | Edit(id: string, change: int, reference: Option<string>, reason: Option<string>)
    | Delete(id: string)
    | CreateTransfer(transfer: string, source: string, destination: string, product: string,
                     quantity: int)
    | Dispatch(transfer: string, id: string)
    | ReceiveTransfer(transfer: string, id: string)
    | CancelTransfer(transfer: string, id: string)
    | MarkException(transfer: string)
    | SaveProduct(product: string, snapshot: string, outboxId: string)
    | Fetch(force: bool)
    | UpdateStatuses(updates: seq<Update>)
    | UpdateRowStatuses(rowUpdates: seq<(string, Status)>)
    | Cleanup(days: int)
    | Pull(rows: seq<(Key, int)>)
    | Startup

  datatype Error =
    | BadQuantity | ReceiptNumberRequired | InsufficientStock(available: int) | BadReturnType | BadBucket
    | SameBucket | ReasonRequired | WouldGoNegative(balance: int) | TransactionNotFound | SameStore
    | TransferNotFound | WrongTransferStatus(status: TransferStatus) | EventNotFound | IdTaken

  datatype Reply = Ok(db: Db) | Err(error: Error)

  predicate IsFresh(s: Db, id: string) {
    id !in s.txns && TxnEvent(id) !in s.outbox
  }

  predicate HasText(s: Option<string>) {
    s.Some? && !IsBlank(s.value)
  }

  function Row(k: Key, m: MovementType, delta: int, reference: Option<Text>, reason: Option<Text>): TxnRow {
    TxnRow(k, m, delta, reference, reason, None, Pending)
  }

  ghost function TryReceive(s: Db, now: Time, c: Command): Reply
    requires c.Receive?
  {
    if c.quantity <= 0 then Err(BadQuantity)
    else if !IsFresh(s, c.id) then Err(IdTaken)
    else Ok(RecordAndPost(s, now, c.id,
                          Row(Key(c.store, c.product, Available), Receipt, c.quantity, Note(c.reference),
                              Note(c.supplier))))
  }

  ghost function TrySell(s: Db, now: Time, c: Command): Reply
    requires c.Sell?
  {
    var k := Key(c.store, c.product, Available);
    if c.quantity <= 0 then Err(BadQuantity)
    else if !HasText(c.reference) then Err(ReceiptNumberRequired)
    else if c.quantity > Quantity(s.balances, k) then Err(InsufficientStock(Quantity(s.balances, k)))
    else if !IsFresh(s, c.id) then Err(IdTaken)
    else Ok(RecordAndPost(s, now, c.id, Row(k, Sale, -c.quantity, Note(c.reference), None)))
  }

  ghost function TryReturn(s: Db, now: Time, c: Command): Reply
    requires c.ReturnStock?
  {
    if c.quantity <= 0 then Err(BadQuantity)
    else if c.kind == None then Err(BadReturnType)
    else if c.bucket == None then Err(BadBucket)
    else
      var k := Key(c.store, c.product, c.bucket.value);
      if c.kind.value == ToSupplier && c.quantity > Quantity(s.balances, k)
      then Err(InsufficientStock(Quantity(s.balances, k)))
      else if !IsFresh(s, c.id) then Err(IdTaken)
      else
        var delta := if c.kind.value == FromCustomer then c.quantity else -c.quantity;
        Ok(RecordAndPost(s, now, c.id, Row(k, Return, delta, Note(c.reference), Note(c.reason))))
  }

  predicate IsMovable(b: Option<Bucket>) {
    b.Some? && b.value != InTransit
  }

  ghost function TryMove(s: Db, now: Time, c: Command): Reply
    requires c.MoveBucket?
  {
    if c.quantity <= 0 then Err(BadQuantity)
    else if IsBlank(c.note) then Err(ReasonRequired)
    else if !IsMovable(c.from) || !IsMovable(c.to) then Err(BadBucket)
    else if c.from == c.to then Err(SameBucket)
    else
      var source, target := Key(c.store, c.product, c.from.value), Key(c.store, c.product, c.to.value);
      if c.quantity > Quantity(s.balances, source) then Err(InsufficientStock(Quantity(s.balances, source)))
      else if !IsFresh(s, c.outId) || !IsFresh(s, c.inId) || c.outId == c.inId then Err(IdTaken)
      else
        var outRow := Row(source, Damage, -c.quantity, None, Some(Given(c.note)));
        var inRow := Row(target, Damage, c.quantity, None, Some(Given(c.note)));
        var moved := Record(Record(s, now, c.outId, outRow), now, c.inId, inRow);
        Ok(PostDayBook(PostDayBook(moved, now, c.outId, outRow), now, c.inId, inRow))
  }

  ghost function TryAdjust(s: Db, now: Time, c: Command): Reply
    requires c.Adjust?
  {
    var k := Key(c.store, c.product, Available);
    if IsBlank(c.note) then Err(ReasonRequired)
    else if c.change < 0 && Quantity(s.balances, k) + c.change < 0
    then Err(WouldGoNegative(Quantity(s.balances, k) + c.change))
    else if !IsFresh(s, c.id) then Err(IdTaken)
    else Ok(RecordAndPost(s, now, c.id,
                          Row(k, Adjustment, c.change, Some(Given(c.countReference)), Some(Given(c.note)))))
  }

  function RewriteEvent(t: Table, now: Time, id: string, row: TxnRow): Table {
    var event := TxnEvent(id);
    if event !in t then t
    else t[event := t[event].(payload := PayloadOf(id, row.(transfer := None), now),
                              status := Pending, retries := 0, error := None)]
  }

  /** The row and its event rewritten and the balance patched by the difference. The rewritten payload
      carries no transfer id. */
  function Rewrite(s: Db, now: Time, id: string, row: TxnRow): Db
    requires id in s.txns
  {
    var diff := row.delta - s.txns[id].delta;
    s.(txns := s.txns[id := row],
       balances := if diff == 0 then s.balances else Added(s.balances, row.key, diff),
       snapshots := if diff == 0 then s.snapshots else Stamped(s, now, row.key, diff),
       outbox := RewriteEvent(s.outbox, now, id, row))
  }

  ghost function TryEdit(s: Db, now: Time, c: Command): Reply
    requires c.Edit?
  {
    if c.id !in s.txns then Err(TransactionNotFound)
    else
      var was := s.txns[c.id];
      if was.movement == Sale && !HasText(c.reference) then Err(ReceiptNumberRequired)
      else
        var row := was.(delta := c.change, reference := Note(c.reference), reason := Note(c.reason));
        Ok(PostDayBook(Rewrite(s, now, c.id, row), now, c.id, row))
  }

  function VoidPayload(id: string, row: TxnRow, now: Time): Payload {
    Movement(id, row.key, if row.delta < 0 then Receipt else Sale, -row.delta, now, None, None)
  }

  predicate IsOnServer(row: TxnRow) {
    row.sync in {Synced, Accepted}
  }

  /** The outbox after a delete: a compensating event for a synced row, a rejection for an unsynced one. */
  function VoidOutbox(t: Table, now: Time, id: string, row: TxnRow): Table {
    if IsOnServer(row) then t[VoidEvent(id) := NewEvent(VoidPayload(id, row, now), now)]
    else if TxnEvent(id) in t
    then t[TxnEvent(id) := t[TxnEvent(id)].(status := Rejected,
                                            error := Some(DeletedBeforeSync))]
    else t
  }

  function Erase(s: Db, now: Time, id: string): Db
    requires id in s.txns
  {
    var row := s.txns[id];
    s.(txns := s.txns - {id},
       balances := Added(s.balances, row.key, -row.delta),
       snapshots := Stamped(s, now, row.key, -row.delta),
       entries := s.entries - {id},
       outbox := VoidOutbox(s.outbox, now, id, row))
  }

  /** Deleting a row that is gone succeeds and changes nothing. */
  ghost function TryDelete(s: Db, now: Time, c: Command): Reply
    requires c.Delete?
  {
    if c.id !in s.txns then Ok(s)
    else
      var row := s.txns[c.id];
      if IsOnServer(row) && VoidEvent(c.id) in s.outbox then Err(IdTaken)
      else
        var s1 := Erase(s, now, c.id);
        var book := BookKey(row.key.store, Day(now));
        Ok(if book in s1.books then s1.(books := s1.books[book := StoreTotal(s1.balances, book.store)]) else s1)
  }

  function TryCreateTransfer(s: Db, c: Command): Reply
    requires c.CreateTransfer?
  {
    if c.quantity <= 0 then Err(BadQuantity)
    else if c.source == c.destination then Err(SameStore)
    else if c.transfer in s.transfers then Err(IdTaken)
    else Ok(s.(transfers := s.transfers[c.transfer :=
                 Transfer(c.source, c.destination, c.product, c.quantity, Draft)]))
  }

  function WithStatus(s: Db, transfer: string, status: TransferStatus): Db
    requires transfer in s.transfers
  {
    s.(transfers := s.transfers[transfer := s.transfers[transfer].(status := status)])
  }

  function TransferRow(transfer: string, k: Key, m: MovementType, delta: int, reference: Text, reason: Text): TxnRow {
    TxnRow(k, m, delta, Some(reference), Some(reason), Some(transfer), Pending)
  }

  function TryDispatch(s: Db, now: Time, c: Command): Reply
    requires c.Dispatch?
  {
    if c.transfer !in s.transfers then Err(TransferNotFound)
    else
      var t := s.transfers[c.transfer];
      var k := Key(t.source, t.product, Available);
      if t.status != Draft then Err(WrongTransferStatus(t.status))
      else if t.quantity > Quantity(s.balances, k) then Err(InsufficientStock(Quantity(s.balances, k)))
      else if !IsFresh(s, c.id) then Err(IdTaken)
      else Ok(Record(WithStatus(s, c.transfer, Dispatched), now, c.id,
                     TransferRow(c.transfer, k, TransferOut, -t.quantity, DispatchOf(c.transfer),
                                 ToStore(t.destination))))
  }

  function TryReceiveTransfer(s: Db, now: Time, c: Command): Reply
    requires c.ReceiveTransfer?
  {
    if c.transfer !in s.transfers then Err(TransferNotFound)
    else
      var t := s.transfers[c.transfer];
      var k := Key(t.destination, t.product, Available);
      if t.status != Dispatched && t.status != Exception then Err(WrongTransferStatus(t.status))
      else if !IsFresh(s, c.id) then Err(IdTaken)
      else Ok(Record(WithStatus(s, c.transfer, Received), now, c.id,
                     TransferRow(c.transfer, k, TransferIn, t.quantity, ReceiptOf(c.transfer), FromStore(t.source))))
  }

  function TryCancelTransfer(s: Db, now: Time, c: Command): Reply
    requires c.CancelTransfer?
  {
    if c.transfer !in s.transfers then Err(TransferNotFound)
    else
      var t := s.transfers[c.transfer];
      var k := Key(t.source, t.product, Available);
      if t.status == Received || t.status == Cancelled then Err(WrongTransferStatus(t.status))
      else if t.status == Draft then Ok(WithStatus(s, c.transfer, Cancelled))
      else if !IsFresh(s, c.id) then Err(IdTaken)
      else Ok(Record(WithStatus(s, c.transfer, Cancelled), now, c.id,
                     TransferRow(c.transfer, k, TransferOut, t.quantity, CancellationOf(c.transfer), StockRestored)))
  }

  function TryMarkException(s: Db, c: Command): Reply
    requires c.MarkException?
  {
    if c.transfer !in s.transfers then Err(TransferNotFound)
    else
      var t := s.transfers[c.transfer];
      if t.status != Dispatched then Err(WrongTransferStatus(t.status))
      else Ok(WithStatus(s, c.transfer, Exception))
  }

  ghost function Try(s: Db, now: Time, c: Command): Reply {
    match c
    case Receive(_, _, _, _, _, _) => TryReceive(s, now, c)
    case Sell(_, _, _, _, _) => TrySell(s, now, c)
    case ReturnStock(_, _, _, _, _, _, _, _) => TryReturn(s, now, c)
    case MoveBucket(_, _, _, _, _, _, _, _) => TryMove(s, now, c)
    case Adjust(_, _, _, _, _, _) => TryAdjust(s, now, c)
    case Edit(_, _, _, _) => TryEdit(s, now, c)
    case Delete(_) => TryDelete(s, now, c)
    case CreateTransfer(_, _, _, _, _) => TryCreateTransfer(s, c)
    case Dispatch(_, _) => TryDispatch(s, now, c)
    case ReceiveTransfer(_, _) => TryReceiveTransfer(s, now, c)
    case CancelTransfer(_, _) => TryCancelTransfer(s, now, c)
    case MarkException(_) => TryMarkException(s, c)
    case SaveProduct(p, snapshot, outboxId) =>
      (match EnqueueProduct(s.outbox, p, snapshot, outboxId, now)
       case None => Err(IdTaken)
       case Some(t) => Ok(s.(outbox := t)))
    case Fetch(force) => Ok(s.(outbox := Reset(s.outbox, force)))
    case UpdateStatuses(us) =>
      (match SetAll(s.outbox, us)
       case None => Err(EventNotFound)
       case Some(t) => Ok(s.(outbox := t)))
    case UpdateRowStatuses(us) => Ok(s.(txns := SetRowStatuses(s.txns, us)))
    case Cleanup(days) => Ok(s.(outbox := Keep(s.outbox, Cutoff(now, days))))
    case Pull(rows) => Ok(PullBalances(s, now, rows))
    case Startup => Ok(Backfill(s, now))
  }

  /** A refused command changes nothing. */
  ghost function Step(s: Db, now: Time, c: Command): Db {
    match Try(s, now, c)
    case Ok(db) => db
    case Err(_) => s
  }

  /** A command and the clock reading it runs at. */
  datatype Timed = Timed(now: Time, command: Command)

  ghost function Run(s: Db, cs: seq<Timed>): Db
    decreases |cs|
  {
    if cs == [] then s else Run(Step(s, cs[0].now, cs[0].command), cs[1..])
  }

  // ---------------------------------------------------------------- commands of one movement

  predicate IsSingleMovement(c: Command) {
    c.Receive? || c.Sell? || c.ReturnStock? || c.Adjust? || c.Dispatch? || c.ReceiveTransfer? || c.CancelTransfer?
  }

  /** `t` is `s` with one more movement in the ledger, the balances, the outbox and the snapshots. */
  ghost predicate AddsMovement(s: Db, now: Time, t: Db, id: string, row: TxnRow) {
    && IsFresh(s, id)
    && t.txns == s.txns[id := row]
    && t.balances == s.balances[row.key := Quantity(s.balances, row.key) + row.delta]
    && t.snapshots == s.snapshots[SnapKey(row.key, Day(now)) := t.balances[row.key]]
    && t.outbox == s.outbox[TxnEvent(id) := NewEvent(PayloadOf(id, row, now), now)]
  }

  /** The row a single-movement command records if it is accepted; `None` where it records nothing. */
  function MovementOf(s: Db, c: Command): Option<TxnRow> {
    match c
    case Receive(_, store, p, q, reference, supplier) =>
      Some(Row(Key(store, p, Available), Receipt, q, Note(reference), Note(supplier)))
    case Sell(_, store, p, q, reference) =>
      Some(Row(Key(store, p, Available), Sale, -q, Note(reference), None))
    case ReturnStock(_, store, p, kind, bucket, q, reference, reason) =>
      if kind == None || bucket == None then None
      else Some(Row(Key(store, p, bucket.value), Return, if kind.value == FromCustomer then q else -q,
                    Note(reference), Note(reason)))
    case Adjust(_, store, p, change, note, reference) =>
      Some(Row(Key(store, p, Available), Adjustment, change, Some(Given(reference)), Some(Given(note))))
    case Dispatch(id, _) =>
      if id !in s.transfers then None
      else
        var t := s.transfers[id];
        Some(TransferRow(id, Key(t.source, t.product, Available), TransferOut, -t.quantity,
                         DispatchOf(id), ToStore(t.destination)))
    case ReceiveTransfer(id, _) =>
      if id !in s.transfers then None
      else
        var t := s.transfers[id];
        Some(TransferRow(id, Key(t.destination, t.product, Available), TransferIn, t.quantity,
                         ReceiptOf(id), FromStore(t.source)))
    case CancelTransfer(id, _) =>
      if id !in s.transfers || s.transfers[id].status == Draft then None
      else
        var t := s.transfers[id];
        Some(TransferRow(id, Key(t.source, t.product, Available), TransferOut, t.quantity,
                         CancellationOf(id), StockRestored))
    case _ => None
  }

  lemma RecordAdds(s: Db, now: Time, id: string, row: TxnRow)
    requires IsFresh(s, id)
    ensures AddsMovement(s, now, Record(s, now, id, row), id, row)
    ensures AddsMovement(s, now, RecordAndPost(s, now, id, row), id, row)
  {
  }

  lemma ShopMovement(s: Db, now: Time, c: Command)
    requires c.Receive? || c.Sell? || c.ReturnStock? || c.Adjust?
    requires Try(s, now, c).Ok?
    ensures IsFresh(s, c.id) && MovementOf(s, c).Some?
    ensures Step(s, now, c) == RecordAndPost(s, now, c.id, MovementOf(s, c).value)
  {
    match c
    case Receive(_, _, _, _, _, _) => assert TryReceive(s, now, c).Ok?;
    case Sell(_, _, _, _, _) => assert TrySell(s, now, c).Ok?;
    case ReturnStock(_, _, _, _, _, _, _, _) => assert TryReturn(s, now, c).Ok?;
    case Adjust(_, _, _, _, _, _) => assert TryAdjust(s, now, c).Ok?;
  }

  lemma TransferMovement(s: Db, now: Time, c: Command)
    requires c.Dispatch? || c.ReceiveTransfer? || c.CancelTransfer?
    requires Try(s, now, c).Ok?
    ensures c.transfer in s.transfers
    ensures
      var status := if c.Dispatch? then Dispatched else if c.ReceiveTransfer? then Received else Cancelled;
      var moved := WithStatus(s, c.transfer, status);
      match MovementOf(s, c)
      case None => Step(s, now, c) == moved
      case Some(row) => IsFresh(s, c.id) && Step(s, now, c) == Record(moved, now, c.id, row)
  {
    match c
    case Dispatch(_, _) => assert TryDispatch(s, now, c).Ok?;
    case ReceiveTransfer(_, _) => assert TryReceiveTransfer(s, now, c).Ok?;
    case CancelTransfer(_, _) => assert TryCancelTransfer(s, now, c).Ok?;
  }

  lemma RecordBesideTransfers(s: Db, transfers: map<string, Transfer>, now: Time, id: string, row: TxnRow)
    requires IsFresh(s, id)
    ensures AddsMovement(s, now, Record(s.(transfers := transfers), now, id, row), id, row)
  {
  }

  lemma TransferSingle(s: Db, now: Time, c: Command)
    requires (c.Dispatch? || c.ReceiveTransfer? || c.CancelTransfer?) && Try(s, now, c).Ok?
    ensures MovementOf(s, c).Some? ==> AddsMovement(s, now, Step(s, now, c), c.id, MovementOf(s, c).value)
    ensures MovementOf(s, c) == None ==>
      var t := Step(s, now, c);
      t.txns == s.txns && t.balances == s.balances && t.snapshots == s.snapshots && t.outbox == s.outbox
  {
    TransferMovement(s, now, c);
    var row, t := MovementOf(s, c), Step(s, now, c);
    if row.Some? {
      RecordBesideTransfers(s, t.transfers, now, c.id, row.value);
      assert t == Record(s.(transfers := t.transfers), now, c.id, row.value);
    }
  }

  /** What each accepted single-movement command does to the four tables every movement writes. */
  lemma SingleMovement(s: Db, now: Time, c: Command) returns (row: Option<TxnRow>)
    requires IsSingleMovement(c) && Try(s, now, c).Ok?
    ensures row == MovementOf(s, c)
    ensures row.Some? ==> AddsMovement(s, now, Step(s, now, c), c.id, row.value)
    ensures row == None ==>
      var t := Step(s, now, c);
      t.txns == s.txns && t.balances == s.balances && t.snapshots == s.snapshots && t.outbox == s.outbox
  {
    row := MovementOf(s, c);
    if c.Dispatch? || c.ReceiveTransfer? || c.CancelTransfer? {
      TransferSingle(s, now, c);
    } else {
      ShopMovement(s, now, c);
      RecordAdds(s, now, c.id, row.value);
    }
  }
}
