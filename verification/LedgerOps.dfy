/** What an accepted command does to the ledger rows and to one balance. */
module LedgerOps {
  import opened Types
  import opened Database

  type Ledger = map<string, TxnRow>

  datatype Op = Put(id: string, row: TxnRow) | Drop(id: string)

  function ApplyOp(l: Ledger, op: Op): Ledger {
    match op
    case Put(id, row) => l[id := row]
    case Drop(id) => l - {id}
  }

  function DeltaAt(l: Ledger, id: string, k: Key): int {
    if id in l && l[id].key == k then l[id].delta else 0
  }

  /** How far an operation moves the ledger total of a key. */
  function ShiftOf(l: Ledger, op: Op, k: Key): int {
    match op
    case Put(id, row) => (if row.key == k then row.delta else 0) - DeltaAt(l, id, k)
    case Drop(id) => -DeltaAt(l, id, k)
  }

  function ApplyOps(l: Ledger, ops: seq<Op>): Ledger
    decreases |ops|
  {
    if ops == [] then l else ApplyOps(ApplyOp(l, ops[0]), ops[1..])
  }

  /** The balance write that goes with an operation; an edit that keeps the quantity writes none. */
  function PatchOf(balances: map<Key, int>, l: Ledger, op: Op): map<Key, int> {
    match op
    case Put(id, row) =>
      if id !in l then Added(balances, row.key, row.delta)
      else if row.delta == l[id].delta then balances
      else Added(balances, row.key, row.delta - l[id].delta)
    case Drop(id) => if id in l then Added(balances, l[id].key, -l[id].delta) else balances
  }

  function PatchAll(balances: map<Key, int>, l: Ledger, ops: seq<Op>): map<Key, int>
    decreases |ops|
  {
    if ops == [] then balances else PatchAll(PatchOf(balances, l, ops[0]), ApplyOp(l, ops[0]), ops[1..])
  }

  function ShiftOfAll(l: Ledger, ops: seq<Op>, k: Key): int
    decreases |ops|
  {
    if ops == [] then 0 else ShiftOf(l, ops[0], k) + ShiftOfAll(ApplyOp(l, ops[0]), ops[1..], k)
  }

  /** An operation on a row that exists keeps its key. */
  predicate KeepsKeys(l: Ledger, ops: seq<Op>)
    decreases |ops|
  {
    ops == [] ||
    ((ops[0].Put? && ops[0].id in l ==> ops[0].row.key == l[ops[0].id].key) && KeepsKeys(ApplyOp(l, ops[0]), ops[1..]))
  }

  /** The balance writes move each balance by the shift of its key. */
  lemma {:induction false} PatchShifts(balances: map<Key, int>, l: Ledger, ops: seq<Op>, k: Key)
    requires KeepsKeys(l, ops)
    ensures Quantity(PatchAll(balances, l, ops), k) == Quantity(balances, k) + ShiftOfAll(l, ops, k)
    decreases |ops|
  {
    if ops != [] {
      PatchShifts(PatchOf(balances, l, ops[0]), ApplyOp(l, ops[0]), ops[1..], k);
    }
  }

  /** The operations of an accepted command, in the order of its statements. */
  function OpsOf(s: Db, c: Command): seq<Op> {
    if c.MoveBucket? then
      if c.from == None || c.to == None then []
      else [Put(c.outId, Row(Key(c.store, c.product, c.from.value), Damage, -c.quantity, None, Some(Given(c.note)))),
            Put(c.inId, Row(Key(c.store, c.product, c.to.value), Damage, c.quantity, None, Some(Given(c.note))))]
    else if c.Edit? && c.id in s.txns then
      [Put(c.id, s.txns[c.id].(delta := c.change, reference := Note(c.reference), reason := Note(c.reason)))]
    else if c.Delete? && c.id in s.txns then [Drop(c.id)]
    else if IsSingleMovement(c) && MovementOf(s, c).Some? then [Put(c.id, MovementOf(s, c).value)]
    else []
  }

  lemma OneOp(balances: map<Key, int>, l: Ledger, op: Op)
    ensures ApplyOps(l, [op]) == ApplyOp(l, op)
    ensures PatchAll(balances, l, [op]) == PatchOf(balances, l, op)
    ensures forall k :: ShiftOfAll(l, [op], k) == ShiftOf(l, op, k)
    ensures (op.Put? && op.id in l ==> op.row.key == l[op.id].key) ==> KeepsKeys(l, [op])
  {
    assert [op][1..] == [];
  }

  lemma TwoOps(balances: map<Key, int>, l: Ledger, a: Op, b: Op)
    ensures ApplyOps(l, [a, b]) == ApplyOp(ApplyOp(l, a), b)
    ensures PatchAll(balances, l, [a, b]) == PatchOf(PatchOf(balances, l, a), ApplyOp(l, a), b)
    ensures a.id !in l && b.id !in l && a.id != b.id ==> KeepsKeys(l, [a, b])
  {
    assert [a, b][1..] == [b];
    OneOp(PatchOf(balances, l, a), ApplyOp(l, a), b);
  }

  /** `t` follows from `s` by the operations: the ledger by applying them, the balances by their writes. */
  ghost predicate Follows(s: Db, t: Db, ops: seq<Op>) {
    && KeepsKeys(s.txns, ops)
    && t.txns == ApplyOps(s.txns, ops)
    && t.balances == PatchAll(s.balances, s.txns, ops)
  }

  lemma OpsOfSingle(s: Db, c: Command)
    requires IsSingleMovement(c)
    ensures OpsOf(s, c) == if MovementOf(s, c).Some? then [Put(c.id, MovementOf(s, c).value)] else []
  {
  }

  lemma SingleFollows(s: Db, now: Time, c: Command)
    requires IsSingleMovement(c) && Try(s, now, c).Ok?
    ensures Follows(s, Step(s, now, c), OpsOf(s, c))
  {
    var row := SingleMovement(s, now, c);
    OpsOfSingle(s, c);
    if row.Some? {
      OneOp(s.balances, s.txns, Put(c.id, row.value));
    }
  }

  lemma MoveFollows(s: Db, now: Time, c: Command)
    requires c.MoveBucket? && TryMove(s, now, c).Ok?
    ensures Follows(s, TryMove(s, now, c).db, OpsOf(s, c))
  {
    var ops := OpsOf(s, c);
    TwoOps(s.balances, s.txns, ops[0], ops[1]);
  }

  lemma EditFollows(s: Db, now: Time, c: Command)
    requires c.Edit? && TryEdit(s, now, c).Ok?
    ensures Follows(s, TryEdit(s, now, c).db, OpsOf(s, c))
  {
    OneOp(s.balances, s.txns, OpsOf(s, c)[0]);
  }

  lemma DeleteFollows(s: Db, now: Time, c: Command)
    requires c.Delete? && TryDelete(s, now, c).Ok?
    ensures Follows(s, TryDelete(s, now, c).db, OpsOf(s, c))
  {
    if c.id in s.txns {
      OneOp(s.balances, s.txns, Drop(c.id));
    }
  }

  /** Every accepted command except pulls and row-status writes. */
  lemma StepFollows(s: Db, now: Time, c: Command)
    requires !c.Pull? && !c.UpdateRowStatuses? && Try(s, now, c).Ok?
    ensures Follows(s, Step(s, now, c), OpsOf(s, c))
  {
    if IsSingleMovement(c) {
      SingleFollows(s, now, c);
    } else if c.MoveBucket? {
      MoveFollows(s, now, c);
    } else if c.Edit? {
      EditFollows(s, now, c);
    } else if c.Delete? {
      DeleteFollows(s, now, c);
    }
  }

  /** The quantity a snapshot lists last for a key. */
  function Pulled(rows: seq<(Key, int)>, k: Key): Option<int>
    decreases |rows|
  {
    if rows == [] then None
    else if Pulled(rows[1..], k).Some? then Pulled(rows[1..], k)
    else if rows[0].0 == k then Some(rows[0].1)
    else None
  }

  lemma {:induction false} PullSetsQuantities(s: Db, now: Time, rows: seq<(Key, int)>, k: Key)
    ensures Quantity(PullBalances(s, now, rows).balances, k)
         == if Pulled(rows, k).Some? then Pulled(rows, k).value else Quantity(s.balances, k)
    ensures PullBalances(s, now, rows).txns == s.txns
    ensures PullBalances(s, now, rows).transfers == s.transfers
    ensures PullBalances(s, now, rows).outbox == s.outbox
    ensures PullBalances(s, now, rows).entries == s.entries
    ensures PullBalances(s, now, rows).books == s.books
    decreases |rows|
  {
    if rows != [] {
      PullSetsQuantities(SetBalance(s, now, rows[0].0, rows[0].1), now, rows[1..], k);
    }
  }

  /** The status a transfer command gives its transfer. */
  function NewStatus(c: Command): Option<TransferStatus> {
    match c
    case Dispatch(_, _) => Some(Dispatched)
    case ReceiveTransfer(_, _) => Some(Received)
    case CancelTransfer(_, _) => Some(Cancelled)
    case MarkException(_) => Some(Exception)
    case _ => None
  }

  function TransfersAfter(ts: map<string, Transfer>, c: Command): map<string, Transfer> {
    if c.CreateTransfer? then
      ts[c.transfer := Transfer(c.source, c.destination, c.product, c.quantity, Draft)]
    else if NewStatus(c).Some? && c.transfer in ts then
      ts[c.transfer := ts[c.transfer].(status := NewStatus(c).value)]
    else ts
  }

  lemma ShopKeepsTransfers(s: Db, now: Time, c: Command)
    requires !c.CreateTransfer? && NewStatus(c) == None && !c.Pull?
    ensures Step(s, now, c).transfers == s.transfers
  {
  }

  /** Only the five transfer commands write transfers, each its own row. */
  lemma StepTransfers(s: Db, now: Time, c: Command)
    requires Try(s, now, c).Ok?
    ensures Step(s, now, c).transfers == TransfersAfter(s.transfers, c)
  {
    if c.Dispatch? || c.ReceiveTransfer? || c.CancelTransfer? {
      TransferMovement(s, now, c);
    } else if c.Pull? {
      PullSetsQuantities(s, now, c.rows, Key("", "", Available));
    } else if !c.CreateTransfer? && !c.MarkException? {
      ShopKeepsTransfers(s, now, c);
    }
  }
}
