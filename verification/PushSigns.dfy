/** Which commands record movements that the push order is safe for. */
module PushSigns {
  import opened Types
  import opened Outbox
  import opened Database
  import opened LedgerOps
  import opened PushOrder
  import opened Delivery
  import opened StrictMode

  /** The push item of a row's event. */
  function PushItem(id: string, row: TxnRow, now: Time): Item {
    ItemOf(TxnEvent(id), PayloadOf(id, row, now))
  }

  /** The commands whose rows run against the sign of their type's priority. */
  predicate RunsAgainstPriority(c: Command) {
    match c
    case ReturnStock(_, _, _, kind, _, _, _, _) => kind == Some(ToSupplier)
    case Adjust(_, _, _, change, _, _) => change < 0
    case CancelTransfer(_, _) => true
    case _ => false
  }

  lemma AcceptedQuantity(s: Db, now: Time, c: Command)
    requires (c.Receive? || c.Sell? || c.ReturnStock?) && Try(s, now, c).Ok?
    ensures c.quantity > 0
  {
    match c
    case Receive(_, _, _, _, _, _) => assert TryReceive(s, now, c).Ok?;
    case Sell(_, _, _, _, _) => assert TrySell(s, now, c).Ok?;
    case ReturnStock(_, _, _, _, _, _, _, _) => assert TryReturn(s, now, c).Ok?;
  }

  lemma MovementSigns(s: Db, now: Time, c: Command)
    requires IsSingleMovement(c) && PositiveTransfers(s) && MovementOf(s, c).Some?
    requires c.Receive? || c.Sell? || c.ReturnStock? ==> c.quantity > 0
    ensures SignsMatch(PushItem(c.id, MovementOf(s, c).value, now)) <==> !RunsAgainstPriority(c)
  {
  }

  /** An accepted command records a row the ordering theorem covers, except for returns to a supplier,
      counts that take stock off, and cancelled dispatches. */
  lemma RecordedSigns(s: Db, now: Time, c: Command)
    requires IsSingleMovement(c) && Try(s, now, c).Ok? && PositiveTransfers(s) && MovementOf(s, c).Some?
    ensures SignsMatch(PushItem(c.id, MovementOf(s, c).value, now)) <==> !RunsAgainstPriority(c)
  {
    if c.Receive? || c.Sell? || c.ReturnStock? {
      AcceptedQuantity(s, now, c);
    }
    MovementSigns(s, now, c);
  }

  /** Of the two rows of a bucket move the one that adds stock runs against its priority too. */
  lemma MoveSigns(s: Db, now: Time, c: Command)
    requires c.MoveBucket? && TryMove(s, now, c).Ok?
    ensures |OpsOf(s, c)| == 2 && OpsOf(s, c)[0].Put? && OpsOf(s, c)[1].Put?
    ensures SignsMatch(PushItem(c.outId, OpsOf(s, c)[0].row, now))
    ensures !SignsMatch(PushItem(c.inId, OpsOf(s, c)[1].row, now))
  {
  }

  /** The type of a row's movement and a delta go together. */
  predicate SignFits(m: MovementType, delta: int) {
    if Priority(Some(m)) <= 1 then delta >= 0 else delta <= 0
  }

  /** An edit queues a row the theorem covers exactly if the new delta keeps to the sign of the row's type. */
  lemma EditedSigns(s: Db, now: Time, c: Command)
    requires c.Edit? && Try(s, now, c).Ok? && TxnEvent(c.id) in s.outbox
    ensures c.id in s.txns && TxnEvent(c.id) in Step(s, now, c).outbox
    ensures var payload := Step(s, now, c).outbox[TxnEvent(c.id)].payload;
      payload.Movement? && (SignsMatch(ItemOf(TxnEvent(c.id), payload)) <==> SignFits(s.txns[c.id].movement, c.change))
  {
    assert Try(s, now, c) == TryEdit(s, now, c);
  }

  /** The void event of a deleted row is covered whatever the row was: it is typed by its own sign. */
  lemma VoidSigns(s: Db, now: Time, c: Command)
    requires c.Delete? && Try(s, now, c).Ok? && c.id in s.txns && IsOnServer(s.txns[c.id])
    ensures VoidEvent(c.id) in Step(s, now, c).outbox
    ensures var payload := Step(s, now, c).outbox[VoidEvent(c.id)].payload;
      payload.Movement? && SignsMatch(ItemOf(VoidEvent(c.id), payload))
  {
    assert Try(s, now, c) == TryDelete(s, now, c);
  }
}
