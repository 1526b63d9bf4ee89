/** The non-rejected inventory events, archived ones included, carry exactly the ledger. */
module OutboxLedger {
  import opened Types
  import opened Sums
  import opened Outbox
  import opened Database
  import opened LedgerOps
  import opened Projection
  import opened Journal

  function Carries(e: Event, k: Key): int {
    if e.payload.Movement? && e.status != Rejected && e.payload.key == k then e.payload.delta else 0
  }

  ghost function CarriedFor(k: Key): (EventId, Event) -> int {
    (id: EventId, e: Event) => Carries(e, k)
  }

  ghost function CarriedSum(t: Table, k: Key): int {
    Weigh(t, CarriedFor(k))
  }

  /** How far the events `a + t`, archived and live, run ahead of the ledger at a key. */
  ghost function SurplusIn(l: Ledger, t: Table, a: Table, k: Key): int {
    CarriedSum(a + t, k) - LedgerSum(l, k)
  }

  ghost function Surplus(j: Journal, k: Key): int {
    SurplusIn(j.db.txns, j.db.outbox, j.archive, k)
  }

  /** The row's own event states the row and is not rejected. */
  predicate IsCarried(all: Table, id: string, row: TxnRow) {
    && TxnEvent(id) in all
    && all[TxnEvent(id)].status != Rejected
    && all[TxnEvent(id)].payload.Movement?
    && all[TxnEvent(id)].payload.key == row.key
    && all[TxnEvent(id)].payload.delta == row.delta
  }

  predicate IsInventoryId(id: EventId) {
    id.TxnEvent? || id.VoidEvent?
  }

  /** Every row recorded locally has its event, product ids carry no movement, and an archived
      inventory event is not queued again. */
  ghost predicate CarriedIn(l: Ledger, t: Table, a: Table) {
    && (forall id <- l.Keys :: IsCarried(a + t, id, l[id]))
    && (forall id <- t.Keys + a.Keys | !IsInventoryId(id) :: !(a + t)[id].payload.Movement?)
    && (forall id <- a.Keys | IsInventoryId(id) :: id !in t)
  }

  ghost predicate Carried(j: Journal) {
    CarriedIn(j.db.txns, j.db.outbox, j.archive)
  }

  /** No status write rejects an inventory event or revives a rejected one. */
  predicate Harmless(t: Table, us: seq<Update>) {
    forall u <- us | u.id in t && t[u.id].payload.Movement? :: u.target != Rejected && t[u.id].status != Rejected
  }

  /** The assumptions on one step: no forced fetch, no server rejection, rows still to be edited or deleted
      before their sync are not archived, and new ids were never used before. */
  ghost predicate Faithful(j: Journal, c: Command) {
    match c
    case Fetch(force) => !force
    case UpdateStatuses(us) => Harmless(j.db.outbox, us)
    case Edit(id, _, _, _) => id in j.db.txns ==> TxnEvent(id) in j.db.outbox
    case Delete(id) =>
      id in j.db.txns ==>
        if IsOnServer(j.db.txns[id]) then VoidEvent(id) !in AllEvents(j) else TxnEvent(id) in j.db.outbox
    case MoveBucket(outId, inId, _, _, _, _, _, _) =>
      TxnEvent(outId) !in j.archive && TxnEvent(inId) !in j.archive
    case _ => IsSingleMovement(c) ==> TxnEvent(c.id) !in j.archive
  }

  // ---------------------------------------------------------------- one event at a time

  /** Inserting or rewriting one event moves the carried sum by the difference of what it carries. */
  lemma PutEvent(t: Table, a: Table, id: EventId, e: Event, k: Key)
    ensures a + t[id := e] == (a + t)[id := e]
    ensures CarriedSum(a + t[id := e], k)
         == CarriedSum(a + t, k) + Carries(e, k) - (if id in a + t then Carries((a + t)[id], k) else 0)
  {
    assert a + t[id := e] == (a + t)[id := e];
    WeighSet(a + t, id, e, CarriedFor(k));
  }

  /** A row written together with its own event, new or already queued. */
  lemma PutRow(l: Ledger, t: Table, a: Table, id: string, row: TxnRow, e: Event, k: Key)
    requires CarriedIn(l, t, a) && TxnEvent(id) !in a
    requires id in l <==> TxnEvent(id) in t
    requires IsCarried(map[TxnEvent(id) := e], id, row)
    ensures CarriedIn(l[id := row], t[TxnEvent(id) := e], a)
    ensures SurplusIn(l[id := row], t[TxnEvent(id) := e], a, k) == SurplusIn(l, t, a, k)
  {
    PutEvent(t, a, TxnEvent(id), e, k);
    WeighSet(l, id, row, RowsOf(k));
    if id in l {
      assert IsCarried(a + t, id, l[id]);
    }
    var l1, t1 := l[id := row], t[TxnEvent(id) := e];
    forall i <- l1.Keys
      ensures IsCarried(a + t1, i, l1[i])
    {
      assert i != id ==> IsCarried(a + t, i, l[i]);
    }
  }

  /** A row deleted together with the event that takes it back: its own, now rejected, or a void event. */
  lemma DropRow(l: Ledger, t: Table, a: Table, id: string, event: EventId, e: Event, k: Key)
    requires CarriedIn(l, t, a) && id in l && event !in a
    requires event == VoidEvent(id) ==> event !in t && Carries(e, k) == if l[id].key == k then -l[id].delta else 0
    requires event == VoidEvent(id) || (event == TxnEvent(id) && e.status == Rejected)
    ensures CarriedIn(l - {id}, t[event := e], a)
    ensures SurplusIn(l - {id}, t[event := e], a, k) == SurplusIn(l, t, a, k)
  {
    PutEvent(t, a, event, e, k);
    WeighRemove(l, id, RowsOf(k));
    assert IsCarried(a + t, id, l[id]);
    forall i <- (l - {id}).Keys
      ensures IsCarried(a + t[event := e], i, l[i])
    {
      assert IsCarried(a + t, i, l[i]);
    }
  }

  /** An event that carries no movement, before and after. */
  lemma PutProduct(l: Ledger, t: Table, a: Table, event: EventId, e: Event, k: Key)
    requires CarriedIn(l, t, a) && !IsInventoryId(event) && !e.payload.Movement?
    ensures CarriedIn(l, t[event := e], a)
    ensures SurplusIn(l, t[event := e], a, k) == SurplusIn(l, t, a, k)
  {
    PutEvent(t, a, event, e, k);
    forall i <- l.Keys
      ensures IsCarried(a + t[event := e], i, l[i])
    {
      assert IsCarried(a + t, i, l[i]);
    }
  }

  /** Status changes that do not cross the rejected boundary. */
  lemma SameCarried(l: Ledger, t: Table, u: Table, a: Table, k: Key)
    requires CarriedIn(l, t, a) && u.Keys == t.Keys
    requires forall id <- t.Keys :: u[id].payload == t[id].payload
    requires forall id <- t.Keys | t[id].payload.Movement? :: u[id].status == Rejected <==> t[id].status == Rejected
    ensures CarriedIn(l, u, a) && SurplusIn(l, u, a, k) == SurplusIn(l, t, a, k)
  {
    WeighAgree(a + u, a + t, CarriedFor(k));
    forall i <- l.Keys
      ensures IsCarried(a + u, i, l[i])
    {
      assert IsCarried(a + t, i, l[i]);
    }
  }

  /** The assumption on status writes is needed: one write keeps the surplus exactly if it does not take a
      movement of that key across the rejected boundary. */
  lemma StatusWriteKeepsSurplus(l: Ledger, t: Table, a: Table, u: Update, k: Key)
    requires u.id in t && t[u.id].payload.Movement?
    ensures
      var p := t[u.id].payload;
      SurplusIn(l, SetOne(t, u).value, a, k) == SurplusIn(l, t, a, k) <==>
      ((u.target == Rejected <==> t[u.id].status == Rejected) || p.key != k || p.delta == 0)
  {
    PutEvent(t, a, u.id, Transition(t[u.id], u), k);
  }

  lemma {:induction false} HarmlessKeepsRejected(t: Table, us: seq<Update>)
    requires Harmless(t, us)
    ensures SetEach(t, us).Keys == t.Keys
    ensures forall id <- t.Keys :: SetEach(t, us)[id].payload == t[id].payload
    ensures forall id <- t.Keys | t[id].payload.Movement? ::
            SetEach(t, us)[id].status == Rejected <==> t[id].status == Rejected
    decreases |us|
  {
    if us != [] {
      var t1 := if us[0].id in t then SetOne(t, us[0]).value else t;
      HarmlessKeepsRejected(t1, us[1..]);
    }
  }

  /** Archiving moves events without changing what was ever queued. */
  lemma ArchivingKeepsAll(archive: Table, t: Table, cutoff: Time)
    ensures archive + Removed(t, Keep(t, cutoff)) + Keep(t, cutoff) == archive + t
  {
  }

  // ---------------------------------------------------------------- one command at a time

  lemma NothingRemoved(j: Journal, now: Time, c: Command)
    requires j.db.outbox.Keys <= Step(j.db, now, c).outbox.Keys
    ensures Advance(j, now, c) == Journal(Step(j.db, now, c), j.archive)
  {
    assert Removed(j.db.outbox, Step(j.db, now, c).outbox) == map[];
    assert j.archive + map[] == j.archive;
  }

  lemma SingleCarries(j: Journal, now: Time, c: Command, k: Key)
    requires IsSingleMovement(c) && Try(j.db, now, c).Ok? && Carried(j) && Faithful(j, c)
    ensures Carried(Journal(Step(j.db, now, c), j.archive))
    ensures Surplus(Journal(Step(j.db, now, c), j.archive), k) == Surplus(j, k)
  {
    var row := SingleMovement(j.db, now, c);
    if row.Some? {
      PutRow(j.db.txns, j.db.outbox, j.archive, c.id, row.value, NewEvent(PayloadOf(c.id, row.value, now), now), k);
    }
  }

  lemma MoveCarries(j: Journal, now: Time, c: Command, k: Key)
    requires c.MoveBucket? && Try(j.db, now, c).Ok? && Carried(j) && Faithful(j, c)
    ensures Carried(Journal(Step(j.db, now, c), j.archive))
    ensures Surplus(Journal(Step(j.db, now, c), j.archive), k) == Surplus(j, k)
  {
    var l, t, a := j.db.txns, j.db.outbox, j.archive;
    var ops := OpsOf(j.db, c);
    var e0 := NewEvent(PayloadOf(c.outId, ops[0].row, now), now);
    var e1 := NewEvent(PayloadOf(c.inId, ops[1].row, now), now);
    PutRow(l, t, a, c.outId, ops[0].row, e0, k);
    PutRow(l[c.outId := ops[0].row], t[TxnEvent(c.outId) := e0], a, c.inId, ops[1].row, e1, k);
    MoveFollows(j.db, now, c);
    TwoOps(j.db.balances, l, ops[0], ops[1]);
    MoveOutbox(j.db, now, c);
  }

  lemma EditCarries(j: Journal, now: Time, c: Command, k: Key)
    requires c.Edit? && Try(j.db, now, c).Ok? && Carried(j) && Faithful(j, c)
    ensures Carried(Journal(Step(j.db, now, c), j.archive))
    ensures Surplus(Journal(Step(j.db, now, c), j.archive), k) == Surplus(j, k)
  {
    var op := OpsOf(j.db, c)[0];
    EditFollows(j.db, now, c);
    OneOp(j.db.balances, j.db.txns, op);
    EditOutbox(j.db, now, c);
    PutRow(j.db.txns, j.db.outbox, j.archive, c.id, op.row,
           RewriteEvent(j.db.outbox, now, c.id, op.row)[TxnEvent(c.id)], k);
  }

  lemma DeleteCarries(j: Journal, now: Time, c: Command, k: Key)
    requires c.Delete? && Try(j.db, now, c).Ok? && Carried(j) && Faithful(j, c)
    ensures Carried(Journal(Step(j.db, now, c), j.archive))
    ensures Surplus(Journal(Step(j.db, now, c), j.archive), k) == Surplus(j, k)
  {
    if c.id in j.db.txns {
      var row := j.db.txns[c.id];
      DeleteFollows(j.db, now, c);
      OneOp(j.db.balances, j.db.txns, Drop(c.id));
      EditOutbox(j.db, now, c);
      var event := if IsOnServer(row) then VoidEvent(c.id) else TxnEvent(c.id);
      DropRow(j.db.txns, j.db.outbox, j.archive, c.id, event, VoidOutbox(j.db.outbox, now, c.id, row)[event], k);
    }
  }

  lemma ProductCarries(j: Journal, now: Time, c: Command, k: Key)
    requires c.SaveProduct? && Try(j.db, now, c).Ok? && Carried(j)
    ensures Carried(Journal(Step(j.db, now, c), j.archive))
    ensures Surplus(Journal(Step(j.db, now, c), j.archive), k) == Surplus(j, k)
  {
    var base := ProductEvent(c.product);
    var event := if base in j.db.outbox && j.db.outbox[base].status == Sending
                 then ProductFollowUp(c.product, c.outboxId) else base;
    PutProduct(j.db.txns, j.db.outbox, j.archive, event, NewEvent(ProductSnapshot(c.product, c.snapshot), now), k);
  }

  lemma StatusCarries(j: Journal, now: Time, c: Command, k: Key)
    requires (c.Fetch? || c.UpdateStatuses?) && Try(j.db, now, c).Ok? && Carried(j) && Faithful(j, c)
    ensures Carried(Journal(Step(j.db, now, c), j.archive))
    ensures Surplus(Journal(Step(j.db, now, c), j.archive), k) == Surplus(j, k)
  {
    StepOutbox(j.db, now, c);
    if c.UpdateStatuses? {
      HarmlessKeepsRejected(j.db.outbox, c.updates);
    }
    SameCarried(j.db.txns, j.db.outbox, OutboxAfter(j.db, now, c), j.archive, k);
  }

  lemma CleanupCarries(j: Journal, now: Time, c: Command, k: Key)
    requires c.Cleanup? && Carried(j)
    ensures Carried(Advance(j, now, c)) && Surplus(Advance(j, now, c), k) == Surplus(j, k)
  {
    ArchivingKeepsAll(j.archive, j.db.outbox, Cutoff(now, c.days));
  }

  lemma {:induction false} RowStatusesKeepRows(txns: Ledger, us: seq<(string, Status)>)
    ensures SetRowStatuses(txns, us).Keys == txns.Keys
    ensures forall id <- txns.Keys :: SetRowStatuses(txns, us)[id].key == txns[id].key
                                   && SetRowStatuses(txns, us)[id].delta == txns[id].delta
    decreases |us|
  {
    if us != [] {
      var (id, status) := us[0];
      RowStatusesKeepRows(if id in txns then txns[id := txns[id].(sync := status)] else txns, us[1..]);
    }
  }

  lemma SameTablesCarry(j: Journal, t: Db, k: Key)
    requires Carried(j) && t.txns == j.db.txns && t.outbox == j.db.outbox
    ensures Carried(Journal(t, j.archive)) && Surplus(Journal(t, j.archive), k) == Surplus(j, k)
  {
  }

  lemma RowStatusesCarry(l: Ledger, us: seq<(string, Status)>, t: Table, a: Table, k: Key)
    requires CarriedIn(l, t, a)
    ensures CarriedIn(SetRowStatuses(l, us), t, a)
    ensures SurplusIn(SetRowStatuses(l, us), t, a, k) == SurplusIn(l, t, a, k)
  {
    RowStatusesKeepLedger(l, us, k);
    RowStatusesKeepRows(l, us);
  }

  lemma OtherTables(s: Db, now: Time, c: Command)
    requires Try(s, now, c).Ok?
    requires c.CreateTransfer? || c.MarkException? || c.Pull? || c.Startup?
    ensures Step(s, now, c).txns == s.txns && Step(s, now, c).outbox == s.outbox
  {
    if c.Pull? {
      PullSetsQuantities(s, now, c.rows, Key("", "", Available));
    }
  }

  /** Commands that write neither movements nor events. */
  lemma OtherCarries(j: Journal, now: Time, c: Command, k: Key)
    requires Carried(j) && Try(j.db, now, c).Ok?
    requires c.CreateTransfer? || c.MarkException? || c.Pull? || c.Startup? || c.UpdateRowStatuses?
    ensures Carried(Journal(Step(j.db, now, c), j.archive))
    ensures Surplus(Journal(Step(j.db, now, c), j.archive), k) == Surplus(j, k)
  {
    if c.UpdateRowStatuses? {
      RowStatusesCarry(j.db.txns, c.rowUpdates, j.db.outbox, j.archive, k);
    } else {
      OtherTables(j.db, now, c);
      SameTablesCarry(j, Step(j.db, now, c), k);
    }
  }

  lemma KeysGrow(s: Db, now: Time, c: Command)
    requires !c.Cleanup?
    ensures s.outbox.Keys <= Step(s, now, c).outbox.Keys
  {
    forall id | id in s.outbox
      ensures id in Step(s, now, c).outbox
    {
      if id !in Step(s, now, c).outbox {
        StepKeepsEvents(s, now, c, id);
      }
    }
  }

  /** Each step moves the events and the ledger by the same amount at every key. */
  lemma FaithfulStep(j: Journal, now: Time, c: Command, k: Key)
    requires Carried(j) && Faithful(j, c)
    ensures Carried(Advance(j, now, c)) && Surplus(Advance(j, now, c), k) == Surplus(j, k)
  {
    if c.Cleanup? {
      CleanupCarries(j, now, c, k);
    } else {
      KeysGrow(j.db, now, c);
      NothingRemoved(j, now, c);
      if Try(j.db, now, c).Ok? {
        if IsSingleMovement(c) {
          SingleCarries(j, now, c, k);
        } else if c.MoveBucket? {
          MoveCarries(j, now, c, k);
        } else if c.Edit? {
          EditCarries(j, now, c, k);
        } else if c.Delete? {
          DeleteCarries(j, now, c, k);
        } else if c.SaveProduct? {
          ProductCarries(j, now, c, k);
        } else if c.Fetch? || c.UpdateStatuses? {
          StatusCarries(j, now, c, k);
        } else {
          OtherCarries(j, now, c, k);
        }
      }
    }
  }

  ghost predicate FaithfulRun(j: Journal, cs: seq<Timed>)
    decreases |cs|
  {
    cs == [] || (Faithful(j, cs[0].command) && FaithfulRun(Advance(j, cs[0].now, cs[0].command), cs[1..]))
  }

  /** Over any such run the events keep carrying exactly the ledger, through edits, rejections of unsynced
      rows and void events of synced ones. */
  lemma {:induction false} OutboxCarriesLedger(j: Journal, cs: seq<Timed>, k: Key)
    requires Carried(j) && FaithfulRun(j, cs)
    requires CarriedSum(AllEvents(j), k) == LedgerSum(j.db.txns, k)
    ensures var end := AdvanceAll(j, cs);
      Carried(end) && CarriedSum(AllEvents(end), k) == LedgerSum(end.db.txns, k)
    decreases |cs|
  {
    if cs != [] {
      FaithfulStep(j, cs[0].now, cs[0].command, k);
      OutboxCarriesLedger(Advance(j, cs[0].now, cs[0].command), cs[1..], k);
    }
  }
}
