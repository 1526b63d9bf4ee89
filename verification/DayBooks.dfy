/** day_books and day_book_entries against the ledger and the balances. */
module DayBooks {
  import opened Types
  import opened Sums
  import opened Outbox
  import opened Database
  import opened LedgerOps

  /** An entry repeats its ledger row and sits in a book of its store; receipts and sales have one,
      adjustments, returns and damage none. */
  ghost predicate EntryAgrees(s: Db, id: string) {
    && (id in s.entries ==>
          && id in s.txns
          && s.entries[id].delta == s.txns[id].delta
          && s.entries[id].movement == s.txns[id].movement
          && s.txns[id].movement !in {Adjustment, Return, Damage}
          && s.entries[id].book in s.books
          && s.entries[id].book.store == s.txns[id].key.store)
    && (id in s.txns && s.txns[id].movement in {Receipt, Sale} ==> id in s.entries)
  }

  lemma PostAgrees(s: Db, t: Db, now: Time, id: string, row: TxnRow, i: string)
    requires EntryAgrees(s, i)
             && (i == id ==> (id in s.txns ==> s.txns[id].movement == row.movement && s.txns[id].key == row.key))
    requires t.txns == s.txns[id := row] && t.entries == s.entries && t.books == s.books
    ensures EntryAgrees(PostDayBook(t, now, id, row), i)
  {
  }

  lemma MoveAgrees(s: Db, now: Time, c: Command, i: string)
    requires c.MoveBucket? && TryMove(s, now, c).Ok? && EntryAgrees(s, i)
    ensures EntryAgrees(TryMove(s, now, c).db, i)
  {
  }

  lemma EditAgrees(s: Db, now: Time, c: Command, i: string)
    requires c.Edit? && TryEdit(s, now, c).Ok? && EntryAgrees(s, i)
    ensures EntryAgrees(TryEdit(s, now, c).db, i)
  {
    var row := s.txns[c.id].(delta := c.change, reference := Note(c.reference), reason := Note(c.reason));
    PostAgrees(s, Rewrite(s, now, c.id, row), now, c.id, row, i);
  }

  lemma DeleteAgrees(s: Db, now: Time, c: Command, i: string)
    requires c.Delete? && TryDelete(s, now, c).Ok? && EntryAgrees(s, i)
    ensures EntryAgrees(TryDelete(s, now, c).db, i)
  {
  }

  lemma ShopAgrees(s: Db, now: Time, c: Command, i: string)
    requires c.Receive? || c.Sell? || c.ReturnStock? || c.Adjust?
    requires Try(s, now, c).Ok? && EntryAgrees(s, i)
    ensures EntryAgrees(Step(s, now, c), i)
  {
    ShopMovement(s, now, c);
    var row := MovementOf(s, c).value;
    PostAgrees(s, Record(s, now, c.id, row), now, c.id, row, i);
  }

  lemma TransferLeavesBooks(s: Db, now: Time, c: Command)
    requires c.Dispatch? || c.ReceiveTransfer? || c.CancelTransfer?
    requires Try(s, now, c).Ok?
    ensures var t := Step(s, now, c);
      && t.entries == s.entries && t.books == s.books
      && match MovementOf(s, c)
         case None => t.txns == s.txns
         case Some(row) =>
           IsFresh(s, c.id) && t.txns == s.txns[c.id := row] && row.movement in {TransferIn, TransferOut}
  {
    TransferMovement(s, now, c);
  }

  lemma TransferAgrees(s: Db, now: Time, c: Command, i: string)
    requires c.Dispatch? || c.ReceiveTransfer? || c.CancelTransfer?
    requires Try(s, now, c).Ok? && EntryAgrees(s, i)
    ensures EntryAgrees(Step(s, now, c), i)
  {
    TransferLeavesBooks(s, now, c);
  }

  lemma {:induction false} RowStatusesKeepMovements(l: Ledger, us: seq<(string, Status)>)
    ensures SetRowStatuses(l, us).Keys == l.Keys
    ensures forall id <- l.Keys :: SetRowStatuses(l, us)[id] == l[id].(sync := SetRowStatuses(l, us)[id].sync)
    decreases |us|
  {
    if us != [] {
      var (id, status) := us[0];
      RowStatusesKeepMovements(if id in l then l[id := l[id].(sync := status)] else l, us[1..]);
    }
  }

  lemma StepAgrees(s: Db, now: Time, c: Command, i: string)
    requires EntryAgrees(s, i)
    ensures EntryAgrees(Step(s, now, c), i)
  {
    if Try(s, now, c).Ok? {
      if c.Receive? || c.Sell? || c.ReturnStock? || c.Adjust? {
        ShopAgrees(s, now, c, i);
      } else if IsSingleMovement(c) {
        TransferAgrees(s, now, c, i);
      } else if c.MoveBucket? {
        MoveAgrees(s, now, c, i);
      } else if c.Edit? {
        EditAgrees(s, now, c, i);
      } else if c.Delete? {
        DeleteAgrees(s, now, c, i);
      } else if c.UpdateRowStatuses? {
        RowStatusesKeepMovements(s.txns, c.rowUpdates);
      } else if c.Pull? {
        PullSetsQuantities(s, now, c.rows, Key("", "", Available));
      }
    }
  }

  /** In every reachable state every entry agrees with its ledger row. */
  lemma {:induction false} EntriesAgreeWithLedger(s: Db, cs: seq<Timed>, i: string)
    requires EntryAgrees(s, i)
    ensures EntryAgrees(Run(s, cs), i)
    decreases |cs|
  {
    if cs != [] {
      StepAgrees(s, cs[0].now, cs[0].command, i);
      EntriesAgreeWithLedger(Step(s, cs[0].now, cs[0].command), cs[1..], i);
    }
  }

  // ---------------------------------------------------------------- entries column by column

  /** The entry a row of a new transaction gets, in today's book of its store. */
  predicate IsNewEntry(e: Entry, row: TxnRow, now: Time) {
    && e.book == BookKey(row.key.store, Day(now)) && e.movement == row.movement && e.delta == row.delta
    && e.bucket == row.key.bucket && e.reference == row.reference && e.reason == row.reason
  }

  /** Receive and sell add exactly the entry of their row; returns and adjustments add none. */
  lemma ShopEntry(s: Db, now: Time, c: Command)
    requires (c.Receive? || c.Sell? || c.ReturnStock? || c.Adjust?) && Try(s, now, c).Ok? && c.id !in s.entries
    ensures var t := Step(s, now, c);
      && c.id in t.txns
      && (if c.Receive? || c.Sell? then
            c.id in t.entries && t.entries == s.entries[c.id := t.entries[c.id]]
            && IsNewEntry(t.entries[c.id], t.txns[c.id], now)
          else t.entries == s.entries)
  {
    ShopMovement(s, now, c);
  }

  /** A bucket move adds no entry. */
  lemma MoveEntry(s: Db, now: Time, c: Command)
    requires c.MoveBucket?
    ensures Step(s, now, c).entries == s.entries
  {
    assert Try(s, now, c) == TryMove(s, now, c);
  }

  /** An edit brings the row's entry to the new delta, reference and reason and leaves it in its book; a visible
      row without one gets it in today's book; an adjustment, return or damage row gets none. */
  lemma EditEntry(s: Db, now: Time, c: Command)
    requires c.Edit? && Try(s, now, c).Ok?
    ensures var t := Step(s, now, c);
      && c.id in t.txns
      && var row := t.txns[c.id];
        if row.movement in {Adjustment, Return, Damage} then t.entries == s.entries
        else
          && c.id in t.entries && t.entries == s.entries[c.id := t.entries[c.id]]
          && if c.id !in s.entries then IsNewEntry(t.entries[c.id], row, now)
             else
               t.entries[c.id]
               == s.entries[c.id].(delta := row.delta, reference := row.reference, reason := row.reason)
  {
    assert Try(s, now, c) == TryEdit(s, now, c);
  }

  // ---------------------------------------------------------------- closing balances

  /** A store's closing stock starts at zero and moves with the AVAILABLE balances of that store and no others. */
  lemma ClosingMovesWithStock(b: map<Key, int>, k: Key, q: int, store: string)
    ensures StoreTotal(map[], store) == 0
    ensures StoreTotal(b[k := q], store)
            == StoreTotal(b, store)
               + if k.store == store && k.bucket == Available then q - (if k in b then b[k] else 0) else 0
  {
    WeighSet(b, k, q, AtStore(store));
  }

  /** The store whose book the command posts to. */
  function PostedStore(s: Db, c: Command): Option<string> {
    match c
    case Receive(_, store, _, _, _, _) => Some(store)
    case Sell(_, store, _, _, _) => Some(store)
    case ReturnStock(_, store, _, _, _, _, _, _) => Some(store)
    case MoveBucket(_, _, store, _, _, _, _, _) => Some(store)
    case Adjust(_, store, _, _, _, _) => Some(store)
    case Edit(id, _, _, _) => if id in s.txns then Some(s.txns[id].key.store) else None
    case _ => None
  }

  lemma EditCloses(s: Db, now: Time, c: Command)
    requires (c.Edit? && TryEdit(s, now, c).Ok?) || (c.MoveBucket? && TryMove(s, now, c).Ok?)
    ensures PostedStore(s, c).Some?
    ensures var store := PostedStore(s, c).value; var t := Step(s, now, c);
      BookKey(store, Day(now)) in t.books && t.books[BookKey(store, Day(now))] == StoreTotal(t.balances, store)
  {
  }

  /** Right after receive, sell, return, move, adjust or edit, today's book of the store closes at the sum
      of its AVAILABLE balances, whatever it said before. */
  lemma BookClosesAtStock(s: Db, now: Time, c: Command)
    requires PostedStore(s, c).Some? && Try(s, now, c).Ok?
    ensures var store := PostedStore(s, c).value; var t := Step(s, now, c);
      BookKey(store, Day(now)) in t.books && t.books[BookKey(store, Day(now))] == StoreTotal(t.balances, store)
  {
    if c.Edit? || c.MoveBucket? {
      EditCloses(s, now, c);
    } else {
      ShopMovement(s, now, c);
    }
  }

  /** A delete closes today's book of the row's store if there is one, and opens none. */
  lemma DeleteClosesExistingBook(s: Db, now: Time, c: Command)
    requires c.Delete? && c.id in s.txns && Try(s, now, c).Ok?
    ensures var t := Step(s, now, c); var book := BookKey(s.txns[c.id].key.store, Day(now));
      && t.books.Keys == s.books.Keys
      && (book in t.books ==> t.books[book] == StoreTotal(t.balances, book.store))
  {
    assert Try(s, now, c) == TryDelete(s, now, c);
  }
}
