/** The inter-store transfer state machine: what each status means for the ledger, how many changes a
    transfer can make, and the conservation of stock with goods in transit. */
module Transfers {
  import opened Types
  import opened Sums
  import opened Outbox
  import opened Database
  import opened LedgerOps

  // ---------------------------------------------------------------- status and ledger

  function Weight(row: TxnRow, transfer: string, k: Key): int {
    if row.transfer == Some(transfer) && row.key == k then row.delta else 0
  }

  ghost function TaggedAt(transfer: string, k: Key): (string, TxnRow) -> int {
    (id: string, row: TxnRow) => Weight(row, transfer, k)
  }

  /** The net of the rows tagged with a transfer under a key. */
  ghost function Net(l: Ledger, transfer: string, k: Key): int {
    Weigh(l, TaggedAt(transfer, k))
  }

  /** What the status says the tagged rows net to: the goods are gone from the source from dispatch on, and
      at the destination exactly once received. */
  function Expected(t: Transfer, k: Key): int {
    if k == Key(t.source, t.product, Available) && t.status in {Dispatched, Exception, Received} then -t.quantity
    else if k == Key(t.destination, t.product, Available) && t.status == Received then t.quantity
    else 0
  }

  ghost predicate SettledAt(s: Db, transfer: string, k: Key) {
    if transfer in s.transfers then
      var t := s.transfers[transfer];
      t.quantity > 0 && t.source != t.destination && Net(s.txns, transfer, k) == Expected(t, k)
    else Net(s.txns, transfer, k) == 0
  }

  /** The run does not edit or delete rows that belong to a transfer. */
  predicate LeavesTransferRows(s: Db, c: Command) {
    (c.Edit? || c.Delete?) && c.id in s.txns ==> s.txns[c.id].transfer == None
  }

  /** The operations neither add nor touch a row of the transfer. */
  predicate Untagged(l: Ledger, ops: seq<Op>, transfer: string)
    decreases |ops|
  {
    ops == [] ||
    (&& (ops[0].Put? ==> ops[0].row.transfer != Some(transfer))
     && (ops[0].id in l ==> l[ops[0].id].transfer != Some(transfer))
     && Untagged(ApplyOp(l, ops[0]), ops[1..], transfer))
  }

  lemma {:induction false} UntaggedKeepsNet(l: Ledger, ops: seq<Op>, transfer: string, k: Key)
    requires Untagged(l, ops, transfer)
    ensures Net(ApplyOps(l, ops), transfer, k) == Net(l, transfer, k)
    decreases |ops|
  {
    if ops != [] {
      match ops[0] {
        case Put(id, row) => WeighSet(l, id, row, TaggedAt(transfer, k));
        case Drop(id) =>
          if id in l {
            WeighRemove(l, id, TaggedAt(transfer, k));
          } else {
            assert l - {id} == l;
          }
      }
      UntaggedKeepsNet(ApplyOp(l, ops[0]), ops[1..], transfer, k);
    }
  }

  lemma {:induction false} RowStatusesKeepNet(l: Ledger, us: seq<(string, Status)>, transfer: string, k: Key)
    ensures Net(SetRowStatuses(l, us), transfer, k) == Net(l, transfer, k)
    decreases |us|
  {
    if us != [] {
      var (id, status) := us[0];
      if id in l {
        WeighSet(l, id, l[id].(sync := status), TaggedAt(transfer, k));
        RowStatusesKeepNet(l[id := l[id].(sync := status)], us[1..], transfer, k);
      } else {
        RowStatusesKeepNet(l, us[1..], transfer, k);
      }
    }
  }

  function StatusAfter(c: Command): TransferStatus {
    if c.Dispatch? then Dispatched else if c.ReceiveTransfer? then Received else Cancelled
  }

  /** The row a status change records is the change of what the status says. */
  lemma RowMatchesStatus(s: Db, now: Time, c: Command, k: Key)
    requires c.Dispatch? || c.ReceiveTransfer? || c.CancelTransfer?
    requires Try(s, now, c).Ok? && c.transfer in s.transfers
    requires s.transfers[c.transfer].source != s.transfers[c.transfer].destination
    ensures var t, row := s.transfers[c.transfer], MovementOf(s, c);
      Expected(t.(status := StatusAfter(c)), k)
      == Expected(t, k) + if row.Some? then Weight(row.value, c.transfer, k) else 0
  {
    match c
    case Dispatch(_, _) => assert TryDispatch(s, now, c).Ok?;
    case ReceiveTransfer(_, _) => assert TryReceiveTransfer(s, now, c).Ok?;
    case CancelTransfer(_, _) => assert TryCancelTransfer(s, now, c).Ok?;
  }

  /** A status change of the transfer itself, with the row it records if it records one. */
  lemma OwnTransferStep(s: Db, now: Time, c: Command, k: Key)
    requires c.Dispatch? || c.ReceiveTransfer? || c.CancelTransfer?
    requires Try(s, now, c).Ok? && SettledAt(s, c.transfer, k)
    ensures SettledAt(Step(s, now, c), c.transfer, k)
  {
    TransferMovement(s, now, c);
    RowMatchesStatus(s, now, c, k);
    var row, s' := MovementOf(s, c), Step(s, now, c);
    assert s'.transfers[c.transfer] == s.transfers[c.transfer].(status := StatusAfter(c));
    if row.Some? {
      assert s'.txns == s.txns[c.id := row.value] && c.id !in s.txns;
      WeighSet(s.txns, c.id, row.value, TaggedAt(c.transfer, k));
    }
  }

  /** Ledger operations of commands that are not this transfer's. */
  lemma OtherOpsUntagged(s: Db, now: Time, c: Command, transfer: string)
    requires Try(s, now, c).Ok? && LeavesTransferRows(s, c)
    requires (c.Dispatch? || c.ReceiveTransfer? || c.CancelTransfer?) ==> c.transfer != transfer
    ensures Untagged(s.txns, OpsOf(s, c), transfer)
  {
    var ops := OpsOf(s, c);
    if c.MoveBucket? {
      MoveUntagged(s, now, c, transfer);
    } else if ops != [] {
      assert ops[1..] == [];
      if IsSingleMovement(c) {
        var row := SingleMovement(s, now, c);
      }
    }
  }

  lemma MoveUntagged(s: Db, now: Time, c: Command, transfer: string)
    requires c.MoveBucket? && TryMove(s, now, c).Ok?
    ensures Untagged(s.txns, OpsOf(s, c), transfer)
  {
    var ops := OpsOf(s, c);
    assert ops[1..] == [ops[1]] && ops[1..][1..] == [];
  }

  lemma OtherStepKeepsNet(s: Db, now: Time, c: Command, transfer: string, k: Key)
    requires Try(s, now, c).Ok? && LeavesTransferRows(s, c)
    requires (c.Dispatch? || c.ReceiveTransfer? || c.CancelTransfer?) ==> c.transfer != transfer
    ensures Net(Step(s, now, c).txns, transfer, k) == Net(s.txns, transfer, k)
  {
    if c.UpdateRowStatuses? {
      RowStatusesKeepNet(s.txns, c.rowUpdates, transfer, k);
    } else if c.Pull? {
      PullSetsQuantities(s, now, c.rows, k);
    } else {
      StepFollows(s, now, c);
      OtherOpsUntagged(s, now, c, transfer);
      UntaggedKeepsNet(s.txns, OpsOf(s, c), transfer, k);
    }
  }

  lemma OtherStepKeepsSettled(s: Db, now: Time, c: Command, transfer: string, k: Key)
    requires SettledAt(s, transfer, k) && LeavesTransferRows(s, c) && Try(s, now, c).Ok?
    requires (c.Dispatch? || c.ReceiveTransfer? || c.CancelTransfer?) ==> c.transfer != transfer
    ensures SettledAt(Step(s, now, c), transfer, k)
  {
    StepTransfers(s, now, c);
    OtherStepKeepsNet(s, now, c, transfer, k);
  }

  lemma StepKeepsSettled(s: Db, now: Time, c: Command, transfer: string, k: Key)
    requires SettledAt(s, transfer, k) && LeavesTransferRows(s, c)
    ensures SettledAt(Step(s, now, c), transfer, k)
  {
    if Try(s, now, c).Ok? {
      if (c.Dispatch? || c.ReceiveTransfer? || c.CancelTransfer?) && c.transfer == transfer {
        OwnTransferStep(s, now, c, k);
      } else {
        OtherStepKeepsSettled(s, now, c, transfer, k);
      }
    }
  }

  ghost predicate RunLeavesTransferRows(s: Db, cs: seq<Timed>)
    decreases |cs|
  {
    cs == [] || (LeavesTransferRows(s, cs[0].command)
                 && RunLeavesTransferRows(Step(s, cs[0].now, cs[0].command), cs[1..]))
  }

  /** In every reachable state the status of a transfer determines its ledger effect at every key. */
  lemma {:induction false} StatusDeterminesLedger(s: Db, cs: seq<Timed>, transfer: string, k: Key)
    requires SettledAt(s, transfer, k) && RunLeavesTransferRows(s, cs)
    ensures SettledAt(Run(s, cs), transfer, k)
    decreases |cs|
  {
    if cs != [] {
      StepKeepsSettled(s, cs[0].now, cs[0].command, transfer, k);
      StatusDeterminesLedger(Step(s, cs[0].now, cs[0].command), cs[1..], transfer, k);
    }
  }

  // ---------------------------------------------------------------- termination of the state machine

  /** Status changes still possible. */
  function Rank(status: TransferStatus): nat {
    match status
    case Draft => 3
    case Dispatched => 2
    case Exception => 1
    case Received | Cancelled => 0
  }

  /** Successful status changes of a transfer over a run. */
  ghost function Changes(s: Db, cs: seq<Timed>, transfer: string): nat
    requires transfer in s.transfers
    decreases |cs|
  {
    if cs == [] then 0
    else
      var t := Step(s, cs[0].now, cs[0].command);
      TransferStep(s, cs[0].now, cs[0].command, transfer);
      (if t.transfers[transfer].status != s.transfers[transfer].status then 1 else 0) + Changes(t, cs[1..], transfer)
  }

  /** The edges of the state machine. */
  predicate IsEdge(from: TransferStatus, to: TransferStatus) {
    match to
    case Draft => false
    case Dispatched => from == Draft
    case Exception => from == Dispatched
    case Received => from in {Dispatched, Exception}
    case Cancelled => from in {Draft, Dispatched, Exception}
  }

  lemma EdgesDescend(from: TransferStatus, to: TransferStatus)
    requires IsEdge(from, to)
    ensures Rank(to) < Rank(from)
  {
  }

  /** A step keeps the transfer's terms, and its status changes only along an edge, by the accepted command
      for that edge. */
  lemma TransferStep(s: Db, now: Time, c: Command, transfer: string)
    requires transfer in s.transfers
    ensures transfer in Step(s, now, c).transfers
    ensures var t, t1 := s.transfers[transfer], Step(s, now, c).transfers[transfer];
      && t1 == t.(status := t1.status)
      && (t1 == t || (IsEdge(t.status, t1.status) && NewStatus(c) == Some(t1.status) && c.transfer == transfer))
      && (NewStatus(c).Some? && c.transfer == transfer && Try(s, now, c).Ok? ==>
            IsEdge(t.status, t1.status) && t1.status == NewStatus(c).value)
  {
    if Try(s, now, c).Ok? {
      StepTransfers(s, now, c);
      if NewStatus(c).Some? {
        GuardedStatus(s, now, c);
      } else if c.CreateTransfer? {
        assert Try(s, now, c) == TryCreateTransfer(s, c);
      }
    }
  }

  lemma GuardedStatus(s: Db, now: Time, c: Command)
    requires NewStatus(c).Some? && Try(s, now, c).Ok?
    ensures c.transfer in s.transfers && IsEdge(s.transfers[c.transfer].status, NewStatus(c).value)
  {
    match c
    case Dispatch(_, _) => assert TryDispatch(s, now, c).Ok?;
    case ReceiveTransfer(_, _) => assert TryReceiveTransfer(s, now, c).Ok?;
    case CancelTransfer(_, _) => assert TryCancelTransfer(s, now, c).Ok?;
    case MarkException(_) => assert TryMarkException(s, c).Ok?;
  }

  /** A transfer makes at most three status changes; a received or cancelled one makes none. */
  lemma {:induction false} ChangesAreBounded(s: Db, cs: seq<Timed>, transfer: string)
    requires transfer in s.transfers
    ensures transfer in Run(s, cs).transfers
    ensures Changes(s, cs, transfer) + Rank(Run(s, cs).transfers[transfer].status)
            <= Rank(s.transfers[transfer].status) <= 3
    ensures Rank(s.transfers[transfer].status) == 0 ==> Run(s, cs).transfers[transfer] == s.transfers[transfer]
    decreases |cs|
  {
    if cs != [] {
      var t := Step(s, cs[0].now, cs[0].command);
      TransferStep(s, cs[0].now, cs[0].command, transfer);
      if t.transfers[transfer] != s.transfers[transfer] {
        EdgesDescend(s.transfers[transfer].status, t.transfers[transfer].status);
      }
      ChangesAreBounded(Step(s, cs[0].now, cs[0].command), cs[1..], transfer);
    }
  }

  // ---------------------------------------------------------------- conservation

  /** AVAILABLE stock of a product over all stores. */
  ghost function OnShelf(product: string): (Key, int) -> int {
    (k: Key, q: int) => if k.product == product && k.bucket == Available then q else 0
  }

  /** The quantity of a transfer that is neither at its source nor at its destination. */
  function Underway(t: Transfer, product: string): int {
    if t.product == product && t.status in {Dispatched, Exception} then t.quantity else 0
  }

  ghost function OnTheWay(product: string): (string, Transfer) -> int {
    (id: string, t: Transfer) => Underway(t, product)
  }

  /** A movement of AVAILABLE stock of the product that is not part of a transfer. */
  ghost function OverTheCounter(product: string): (string, TxnRow) -> int {
    (id: string, row: TxnRow) => Counted(row, product)
  }

  /** Goods on any shelf or on the way. */
  ghost function Goods(s: Db, product: string): int {
    Weigh(s.balances, OnShelf(product)) + Weigh(s.transfers, OnTheWay(product))
  }

  lemma MovementOnShelf(s: Db, now: Time, t: Db, id: string, row: TxnRow, product: string)
    requires AddsMovement(s, now, t, id, row) && row.key.bucket == Available
    ensures Weigh(t.balances, OnShelf(product))
         == Weigh(s.balances, OnShelf(product)) + if row.key.product == product then row.delta else 0
  {
    WeighSet(s.balances, row.key, Quantity(s.balances, row.key) + row.delta, OnShelf(product));
  }

  lemma TransferOnTheWay(s: Db, now: Time, c: Command, product: string)
    requires (c.CreateTransfer? || NewStatus(c).Some?) && Try(s, now, c).Ok?
    ensures var t := Step(s, now, c).transfers;
      c.transfer in t &&
      Weigh(t, OnTheWay(product)) == Weigh(s.transfers, OnTheWay(product)) + Underway(t[c.transfer], product)
        - if c.transfer in s.transfers then Underway(s.transfers[c.transfer], product) else 0
  {
    StepTransfers(s, now, c);
    WeighSet(s.transfers, c.transfer, TransfersAfter(s.transfers, c)[c.transfer], OnTheWay(product));
  }

  /** What each stock-moving transfer command puts back on a shelf or takes off it. */
  lemma MovedStock(s: Db, now: Time, c: Command)
    requires (c.Dispatch? || c.ReceiveTransfer? || c.CancelTransfer?) && Try(s, now, c).Ok?
    ensures c.transfer in s.transfers
    ensures
      var t := s.transfers[c.transfer];
      match MovementOf(s, c)
      case None => c.CancelTransfer? && t.status == Draft
      case Some(row) =>
        && row.key.bucket == Available && row.key.product == t.product
        && (c.Dispatch? ==> t.status == Draft && row.delta == -t.quantity)
        && (!c.Dispatch? ==> t.status in {Dispatched, Exception} && row.delta == t.quantity)
  {
    match c
    case Dispatch(_, _) => assert TryDispatch(s, now, c).Ok?;
    case ReceiveTransfer(_, _) => assert TryReceiveTransfer(s, now, c).Ok?;
    case CancelTransfer(_, _) => assert TryCancelTransfer(s, now, c).Ok?;
  }

  lemma MovingTransferConserves(s: Db, now: Time, c: Command, product: string)
    requires (c.Dispatch? || c.ReceiveTransfer? || c.CancelTransfer?) && Try(s, now, c).Ok?
    ensures Goods(Step(s, now, c), product) == Goods(s, product)
  {
    MovedStock(s, now, c);
    TransferOnTheWay(s, now, c, product);
    StepTransfers(s, now, c);
    var t := Step(s, now, c);
    assert t.transfers[c.transfer] == s.transfers[c.transfer].(status := NewStatus(c).value);
    var row := SingleMovement(s, now, c);
    if row.Some? {
      MovementOnShelf(s, now, t, c.id, row.value, product);
    }
  }

  /** Create, dispatch, receive, mark-exception and cancel keep the goods of every product, accepted or not. */
  lemma TransfersConserveGoods(s: Db, now: Time, c: Command, product: string)
    requires c.CreateTransfer? || NewStatus(c).Some?
    ensures Goods(Step(s, now, c), product) == Goods(s, product)
  {
    if Try(s, now, c).Ok? {
      if c.CreateTransfer? || c.MarkException? {
        TransferOnTheWay(s, now, c, product);
      } else {
        MovingTransferConserves(s, now, c, product);
      }
    }
  }

  /** Neither the rows written nor the rows they replace belong to a transfer. */
  predicate OverCounter(l: Ledger, ops: seq<Op>)
    decreases |ops|
  {
    ops == [] ||
    (&& (ops[0].Put? ==> ops[0].row.transfer == None)
     && (ops[0].id in l ==> l[ops[0].id].transfer == None)
     && OverCounter(ApplyOp(l, ops[0]), ops[1..]))
  }

  function Counted(row: TxnRow, product: string): int {
    if row.key.product == product && row.key.bucket == Available && row.transfer == None then row.delta else 0
  }

  lemma AddMovesShelf(b: map<Key, int>, k: Key, d: int, product: string)
    ensures Weigh(Added(b, k, d), OnShelf(product))
         == Weigh(b, OnShelf(product)) + if k.product == product && k.bucket == Available then d else 0
  {
    WeighSet(b, k, Quantity(b, k) + d, OnShelf(product));
  }

  lemma OpMovesShelf(b: map<Key, int>, l: Ledger, op: Op, product: string)
    requires op.Put? ==> op.row.transfer == None && (op.id in l ==> op.row.key == l[op.id].key)
    requires op.id in l ==> l[op.id].transfer == None
    ensures Weigh(PatchOf(b, l, op), OnShelf(product)) - Weigh(b, OnShelf(product))
         == Weigh(ApplyOp(l, op), OverTheCounter(product)) - Weigh(l, OverTheCounter(product))
  {
    match op
    case Put(id, row) =>
      WeighSet(l, id, row, OverTheCounter(product));
      AddMovesShelf(b, row.key, row.delta - if id in l then l[id].delta else 0, product);
    case Drop(id) =>
      if id in l {
        WeighRemove(l, id, OverTheCounter(product));
        AddMovesShelf(b, l[id].key, -l[id].delta, product);
      } else {
        assert l - {id} == l;
      }
  }

  lemma {:induction false} OpsMoveShelf(b: map<Key, int>, l: Ledger, ops: seq<Op>, product: string)
    requires OverCounter(l, ops) && KeepsKeys(l, ops)
    ensures Weigh(PatchAll(b, l, ops), OnShelf(product)) - Weigh(b, OnShelf(product))
         == Weigh(ApplyOps(l, ops), OverTheCounter(product)) - Weigh(l, OverTheCounter(product))
    decreases |ops|
  {
    if ops != [] {
      OpMovesShelf(b, l, ops[0], product);
      OpsMoveShelf(PatchOf(b, l, ops[0]), ApplyOp(l, ops[0]), ops[1..], product);
    }
  }

  lemma ShopOpsOverCounter(s: Db, now: Time, c: Command)
    requires Try(s, now, c).Ok? && LeavesTransferRows(s, c) && NewStatus(c) == None
    ensures OverCounter(s.txns, OpsOf(s, c))
  {
    var ops := OpsOf(s, c);
    if c.MoveBucket? {
      MoveOverCounter(s, now, c);
    } else if ops != [] {
      assert ops[1..] == [];
      if IsSingleMovement(c) {
        var row := SingleMovement(s, now, c);
      }
    }
  }

  lemma MoveOverCounter(s: Db, now: Time, c: Command)
    requires c.MoveBucket? && TryMove(s, now, c).Ok?
    ensures OverCounter(s.txns, OpsOf(s, c))
  {
    var ops := OpsOf(s, c);
    assert ops[1..] == [ops[1]] && ops[1..][1..] == [];
  }

  lemma {:induction false} RowStatusesKeepCounter(l: Ledger, us: seq<(string, Status)>, product: string)
    ensures Weigh(SetRowStatuses(l, us), OverTheCounter(product)) == Weigh(l, OverTheCounter(product))
    decreases |us|
  {
    if us != [] {
      var (id, status) := us[0];
      if id in l {
        WeighSet(l, id, l[id].(sync := status), OverTheCounter(product));
        RowStatusesKeepCounter(l[id := l[id].(sync := status)], us[1..], product);
      } else {
        RowStatusesKeepCounter(l, us[1..], product);
      }
    }
  }

  /** What transfers neither make nor destroy: goods less everything that went over the counter. */
  ghost function Imbalance(s: Db, product: string): int {
    Goods(s, product) - Weigh(s.txns, OverTheCounter(product))
  }

  lemma TransferKeepsImbalance(s: Db, now: Time, c: Command, product: string)
    requires NewStatus(c).Some? || c.CreateTransfer?
    ensures Imbalance(Step(s, now, c), product) == Imbalance(s, product)
  {
    TransfersConserveGoods(s, now, c, product);
    if (c.Dispatch? || c.ReceiveTransfer? || c.CancelTransfer?) && Try(s, now, c).Ok? {
      var row := SingleMovement(s, now, c);
      if row.Some? {
        WeighSet(s.txns, c.id, row.value, OverTheCounter(product));
      }
    }
  }

  lemma StepKeepsImbalance(s: Db, now: Time, c: Command, product: string)
    requires !c.Pull? && LeavesTransferRows(s, c)
    ensures Imbalance(Step(s, now, c), product) == Imbalance(s, product)
  {
    if NewStatus(c).Some? || c.CreateTransfer? {
      TransferKeepsImbalance(s, now, c, product);
    } else if Try(s, now, c).Ok? {
      ShopKeepsTransfers(s, now, c);
      if c.UpdateRowStatuses? {
        RowStatusesKeepCounter(s.txns, c.rowUpdates, product);
      } else {
        StepFollows(s, now, c);
        ShopOpsOverCounter(s, now, c);
        OpsMoveShelf(s.balances, s.txns, OpsOf(s, c), product);
      }
    }
  }

  /** Over any run without pulls, the goods of a product change by what went over the counter and by
      nothing else: whatever a transfer takes from a shelf is on the way or arrives. */
  lemma {:induction false} GoodsAreConserved(s: Db, cs: seq<Timed>, product: string)
    requires RunLeavesTransferRows(s, cs) && forall t <- cs :: !t.command.Pull?
    ensures Goods(Run(s, cs), product) - Goods(s, product)
         == Weigh(Run(s, cs).txns, OverTheCounter(product)) - Weigh(s.txns, OverTheCounter(product))
    decreases |cs|
  {
    if cs != [] {
      StepKeepsImbalance(s, cs[0].now, cs[0].command, product);
      GoodsAreConserved(Step(s, cs[0].now, cs[0].command), cs[1..], product);
    }
  }

  /** The total of a product over all four buckets of a store. */
  function InStore(balances: map<Key, int>, store: string, product: string): int {
    Quantity(balances, Key(store, product, Available)) + Quantity(balances, Key(store, product, Damaged))
    + Quantity(balances, Key(store, product, Quarantine)) + Quantity(balances, Key(store, product, InTransit))
  }

  /** Moving stock between buckets keeps every store's total of every product. */
  lemma MoveConservesStore(s: Db, now: Time, c: Command, store: string, product: string)
    requires c.MoveBucket?
    ensures InStore(Step(s, now, c).balances, store, product) == InStore(s.balances, store, product)
  {
    if Try(s, now, c).Ok? {
      StepFollows(s, now, c);
      MoveChecks(s, now, c);
      MoveShifts(s, c, store, product);
    }
  }

  lemma MoveChecks(s: Db, now: Time, c: Command)
    requires c.MoveBucket? && TryMove(s, now, c).Ok?
    ensures c.from.Some? && c.to.Some? && c.outId != c.inId && c.outId !in s.txns && c.inId !in s.txns
  {
  }

  lemma TwoRowsPatch(b: map<Key, int>, l: Ledger, outId: string, out: TxnRow, inId: string, into: TxnRow)
    requires outId != inId && outId !in l && inId !in l
    ensures PatchAll(b, l, [Put(outId, out), Put(inId, into)])
            == Added(Added(b, out.key, out.delta), into.key, into.delta)
  {
    TwoOps(b, l, Put(outId, out), Put(inId, into));
  }

  lemma TwoRowsKeepStore(b: map<Key, int>, l: Ledger, outId: string, out: TxnRow, inId: string, into: TxnRow,
                         store: string, product: string)
    requires outId != inId && outId !in l && inId !in l
    requires out.key.store == into.key.store && out.key.product == into.key.product && out.delta == -into.delta
    ensures InStore(PatchAll(b, l, [Put(outId, out), Put(inId, into)]), store, product) == InStore(b, store, product)
  {
    TwoRowsPatch(b, l, outId, out, inId, into);
    AddAndTake(b, out.key, into.key, into.delta, store, product);
  }

  lemma MoveShifts(s: Db, c: Command, store: string, product: string)
    requires c.MoveBucket? && c.from.Some? && c.to.Some?
    requires c.outId != c.inId && c.outId !in s.txns && c.inId !in s.txns
    ensures InStore(PatchAll(s.balances, s.txns, OpsOf(s, c)), store, product) == InStore(s.balances, store, product)
  {
    var ops := OpsOf(s, c);
    assert ops == [Put(c.outId, ops[0].row), Put(c.inId, ops[1].row)];
    TwoRowsKeepStore(s.balances, s.txns, c.outId, ops[0].row, c.inId, ops[1].row, store, product);
  }

  lemma AddShiftsStore(b: map<Key, int>, k: Key, d: int, store: string, product: string)
    ensures InStore(Added(b, k, d), store, product)
         == InStore(b, store, product) + if k.store == store && k.product == product then d else 0
  {
    assert k == Key(k.store, k.product, k.bucket);
    match k.bucket
    case Available =>
    case Damaged =>
    case Quarantine =>
    case InTransit =>
  }

  lemma AddAndTake(b: map<Key, int>, from: Key, to: Key, q: int, store: string, product: string)
    requires from.store == to.store && from.product == to.product
    ensures InStore(Added(Added(b, from, -q), to, q), store, product) == InStore(b, store, product)
  {
    AddShiftsStore(b, from, -q, store, product);
    AddShiftsStore(Added(b, from, -q), to, q, store, product);
  }
}
