/** What the server already has: delivered events stay delivered, and with the open ones they carry the ledger. */
module Delivered {
  import opened Types
  import opened Sums
  import opened Outbox
  import opened Database
  import opened LedgerOps
  import opened Projection
  import opened Journal
  import opened OutboxLedger
  import opened Effects

  predicate IsDelivered(e: Event) {
    e.status == Synced || e.status == Accepted
  }

  /** Every row whose event is delivered says so itself; a row may say so before its event does. */
  ghost predicate IsMarked(s: Db) {
    forall id <- s.txns.Keys | TxnEvent(id) in s.outbox && IsDelivered(s.outbox[TxnEvent(id)]) ::
      s.txns[id].sync == Synced || s.txns[id].sync == Accepted
  }

  /** The command queues, rewrites or sets the status of the event. A delete names the void event it may queue,
      not the event of its row. */
  predicate Names(c: Command, event: EventId) {
    match c
    case Edit(id, _, _, _) => event == TxnEvent(id)
    case Delete(id) => event == VoidEvent(id)
    case SaveProduct(p, _, outboxId) => event == ProductEvent(p) || event == ProductFollowUp(p, outboxId)
    case MoveBucket(outId, inId, _, _, _, _, _, _) => event == TxnEvent(outId) || event == TxnEvent(inId)
    case UpdateStatuses(us) => exists u <- us :: u.id == event
    case _ => IsSingleMovement(c) && event == TxnEvent(c.id)
  }

  lemma {:induction false} StatusesSkip(t: Table, us: seq<Update>, event: EventId)
    requires forall u <- us :: u.id != event
    ensures event in SetEach(t, us) <==> event in t
    ensures event in t ==> SetEach(t, us)[event] == t[event]
    decreases |us|
  {
    if us != [] {
      var t1 := if us[0].id in t then t[us[0].id := Transition(t[us[0].id], us[0])] else t;
      StatusesSkip(t1, us[1..], event);
    }
  }

  lemma DeleteSkips(s: Db, now: Time, c: Command, event: EventId)
    requires c.Delete? && event != VoidEvent(c.id) && event in s.outbox && IsDelivered(s.outbox[event]) && IsMarked(s)
    ensures event in Step(s, now, c).outbox && Step(s, now, c).outbox[event] == s.outbox[event]
  {
    if c.id in s.txns {
      DeleteEffect(s, now, c);
    } else {
      assert Try(s, now, c) == TryDelete(s, now, c);
    }
  }

  lemma OtherSkips(s: Db, now: Time, c: Command, event: EventId)
    requires !c.Delete? && !c.UpdateStatuses? && Try(s, now, c).Ok?
    requires event in s.outbox && IsDelivered(s.outbox[event]) && !Names(c, event)
    ensures var t := Step(s, now, c).outbox;
      if event in t then t[event] == s.outbox[event] else c.Cleanup?
  {
    StepOutbox(s, now, c);
  }

  /** A command that does not name a delivered event leaves it as it is, or archives it. */
  lemma StepKeepsDelivered(s: Db, now: Time, c: Command, event: EventId)
    requires IsMarked(s) && event in s.outbox && IsDelivered(s.outbox[event]) && !Names(c, event)
    ensures var t := Step(s, now, c).outbox;
      if event in t then t[event] == s.outbox[event] else c.Cleanup?
  {
    if Try(s, now, c).Ok? {
      if c.Delete? {
        DeleteSkips(s, now, c, event);
      } else if c.UpdateStatuses? {
        StepOutbox(s, now, c);
        StatusesSkip(s.outbox, c.updates, event);
      } else {
        OtherSkips(s, now, c, event);
      }
    }
  }

  /** An event that is not there is not brought back by a command that does not name it. */
  lemma StepBringsNothingBack(s: Db, now: Time, c: Command, event: EventId)
    requires event !in s.outbox && !Names(c, event)
    ensures event !in Step(s, now, c).outbox
  {
    if Try(s, now, c).Ok? {
      StepOutbox(s, now, c);
      if c.UpdateStatuses? {
        StatusesSkip(s.outbox, c.updates, event);
      }
    }
  }

  // ---------------------------------------------------------------- marks

  /** Status writes mark a row before its event, and take no mark off the row of a delivered event. */
  ghost predicate KeepsMarks(s: Db, c: Command) {
    match c
    case UpdateStatuses(us) =>
      forall u <- us | u.id.TxnEvent? && u.id.txn in s.txns && (u.target == Synced || u.target == Accepted) ::
        s.txns[u.id.txn].sync == Synced || s.txns[u.id.txn].sync == Accepted
    case UpdateRowStatuses(us) =>
      forall u <- us | TxnEvent(u.0) in s.outbox && IsDelivered(s.outbox[TxnEvent(u.0)]) ::
        u.1 == Synced || u.1 == Accepted
    case _ => true
  }

  /** An event is delivered by a list of writes only if one of them says so. */
  lemma {:induction false} StatusesDeliver(t: Table, us: seq<Update>, event: EventId)
    requires event in t
    ensures event in SetEach(t, us)
    ensures IsDelivered(SetEach(t, us)[event]) ==>
      IsDelivered(t[event]) || exists u <- us :: u.id == event && (u.target == Synced || u.target == Accepted)
    decreases |us|
  {
    if us != [] {
      var t1 := if us[0].id in t then t[us[0].id := Transition(t[us[0].id], us[0])] else t;
      StatusesDeliver(t1, us[1..], event);
      assert us[0] in us && forall u <- us[1..] :: u in us;
    }
  }

  lemma {:induction false} ListedIsIn(us: seq<(string, Status)>, id: string)
    ensures Listed(us, id).Some? ==> (id, Listed(us, id).value) in us
    decreases |us|
  {
    if us != [] {
      ListedIsIn(us[..|us| - 1], id);
      assert us == us[..|us| - 1] + [us[|us| - 1]];
    }
  }

  predicate IsMarkedAt(s: Db, id: string) {
    id in s.txns && TxnEvent(id) in s.outbox && IsDelivered(s.outbox[TxnEvent(id)]) ==>
      s.txns[id].sync == Synced || s.txns[id].sync == Accepted
  }

  lemma StatusWritesKeepMarks(s: Db, now: Time, c: Command, id: string)
    requires (c.UpdateStatuses? || c.UpdateRowStatuses?) && Try(s, now, c).Ok?
    requires IsMarkedAt(s, id) && KeepsMarks(s, c)
    ensures IsMarkedAt(Step(s, now, c), id)
  {
    if c.UpdateStatuses? {
      BatchRefinesSingles(s.outbox, c.updates);
      SetEachKeepsPayloads(s.outbox, c.updates);
      if TxnEvent(id) in s.outbox {
        StatusesDeliver(s.outbox, c.updates, TxnEvent(id));
      }
    } else {
      RowStatusesEffect(s.txns, c.rowUpdates, id);
      ListedIsIn(c.rowUpdates, id);
    }
  }

  lemma MovementKeepsMarks(s: Db, now: Time, c: Command, id: string)
    requires IsSingleMovement(c) && Try(s, now, c).Ok? && IsMarkedAt(s, id)
    ensures IsMarkedAt(Step(s, now, c), id)
  {
    var row := SingleMovement(s, now, c);
  }

  lemma RewriteKeepsMarks(s: Db, now: Time, c: Command, id: string)
    requires (c.Edit? || c.Delete? || c.MoveBucket?) && Try(s, now, c).Ok? && IsMarkedAt(s, id)
    ensures IsMarkedAt(Step(s, now, c), id)
  {
    if c.Edit? {
      EditEffect(s, now, c);
    } else if c.MoveBucket? {
      MoveEffect(s, now, c);
    } else if c.id in s.txns {
      DeleteEffect(s, now, c);
    } else {
      assert Try(s, now, c) == TryDelete(s, now, c);
    }
  }

  lemma OtherKeepsMarks(s: Db, now: Time, c: Command, id: string)
    requires c.CreateTransfer? || c.MarkException? || c.SaveProduct? || c.Fetch? || c.Cleanup? || c.Pull? || c.Startup?
    requires Try(s, now, c).Ok? && IsMarkedAt(s, id)
    ensures IsMarkedAt(Step(s, now, c), id)
  {
    StepOutbox(s, now, c);
    if c.Pull? {
      PullSetsQuantities(s, now, c.rows, Key("", "", Available));
    }
  }

  lemma StepKeepsMarks(s: Db, now: Time, c: Command)
    requires IsMarked(s) && KeepsMarks(s, c)
    ensures IsMarked(Step(s, now, c))
  {
    if Try(s, now, c).Ok? {
      forall id <- Step(s, now, c).txns.Keys
        ensures IsMarkedAt(Step(s, now, c), id)
      {
        assert IsMarkedAt(s, id);
        if c.UpdateStatuses? || c.UpdateRowStatuses? {
          StatusWritesKeepMarks(s, now, c, id);
        } else if IsSingleMovement(c) {
          MovementKeepsMarks(s, now, c, id);
        } else if c.Edit? || c.Delete? || c.MoveBucket? {
          RewriteKeepsMarks(s, now, c, id);
        } else {
          OtherKeepsMarks(s, now, c, id);
        }
      }
    }
  }

  // ---------------------------------------------------------------- runs

  ghost predicate MarkedRun(s: Db, cs: seq<Timed>)
    decreases |cs|
  {
    cs == [] || (KeepsMarks(s, cs[0].command) && MarkedRun(Step(s, cs[0].now, cs[0].command), cs[1..]))
  }

  /** The event as it was delivered is live or archived, and only one of them. */
  predicate IsKept(j: Journal, event: EventId, e: Event) {
    if event in j.db.outbox then j.db.outbox[event] == e else event in j.archive && j.archive[event] == e
  }

  /** Over any run in which status writes mark rows first, a delivered event that no command names stays delivered
      and unchanged, whatever is done to its row: deleting the row never takes it back. */
  lemma {:induction false} DeliveredStaysDelivered(j: Journal, cs: seq<Timed>, event: EventId, e: Event)
    requires IsMarked(j.db) && MarkedRun(j.db, cs) && IsDelivered(e) && IsKept(j, event, e)
    requires forall t <- cs :: !Names(t.command, event)
    ensures IsKept(AdvanceAll(j, cs), event, e) && IsMarked(AdvanceAll(j, cs).db)
    decreases |cs|
  {
    if cs != [] {
      var c, now := cs[0].command, cs[0].now;
      assert cs[0] in cs;
      StepKeepsMarks(j.db, now, c);
      if event in j.db.outbox {
        StepKeepsDelivered(j.db, now, c, event);
      } else {
        StepBringsNothingBack(j.db, now, c, event);
      }
      DeliveredStaysDelivered(Advance(j, now, c), cs[1..], event, e);
    }
  }

  // ---------------------------------------------------------------- what the server has and what is on its way

  function DeliveredDelta(e: Event, k: Key): int {
    if e.payload.Movement? && e.payload.key == k && (e.status == Synced || e.status == Accepted)
    then e.payload.delta else 0
  }

  function OpenDelta(e: Event, k: Key): int {
    if e.payload.Movement? && e.payload.key == k && e.status in {Pending, Sending, Retryable, Review}
    then e.payload.delta else 0
  }

  ghost function DeliveredAt(k: Key): (EventId, Event) -> int {
    (id: EventId, e: Event) => DeliveredDelta(e, k)
  }

  ghost function OpenAt(k: Key): (EventId, Event) -> int {
    (id: EventId, e: Event) => OpenDelta(e, k)
  }

  /** Over the runs in which the events carry the ledger, what was delivered and what is still open add up to it at
      every key. */
  lemma DeliveredPlusOpen(j: Journal, cs: seq<Timed>, k: Key)
    requires Carried(j) && FaithfulRun(j, cs) && CarriedSum(AllEvents(j), k) == LedgerSum(j.db.txns, k)
    ensures var end := AdvanceAll(j, cs);
      Weigh(AllEvents(end), DeliveredAt(k)) + Weigh(AllEvents(end), OpenAt(k)) == LedgerSum(end.db.txns, k)
  {
    OutboxCarriesLedger(j, cs, k);
    CarriedParts(AllEvents(AdvanceAll(j, cs)), k);
  }

  lemma CarriedParts(t: Table, k: Key)
    ensures CarriedSum(t, k) == Weigh(t, DeliveredAt(k)) + Weigh(t, OpenAt(k))
  {
    WeighParts(t, CarriedFor(k), DeliveredAt(k), OpenAt(k));
  }
}
