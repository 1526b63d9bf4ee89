/** The outbox together with what cleanups archived from it: no event is lost, and the events carry
    exactly the ledger. */
module Journal {
  import opened Types
  import opened Outbox
  import opened Database
  import opened LedgerOps

  datatype Journal = Journal(db: Db, archive: Table)

  /** Every event ever queued, in its last state. */
  function AllEvents(j: Journal): Table {
    j.archive + j.db.outbox
  }

  function Removed(before: Table, after: Table): Table {
    map id | id in before && id !in after :: before[id]
  }

  ghost function Advance(j: Journal, now: Time, c: Command): Journal {
    var db := Step(j.db, now, c);
    Journal(db, j.archive + Removed(j.db.outbox, db.outbox))
  }

  ghost function AdvanceAll(j: Journal, cs: seq<Timed>): Journal
    decreases |cs|
  {
    if cs == [] then j else AdvanceAll(Advance(j, cs[0].now, cs[0].command), cs[1..])
  }

  // ---------------------------------------------------------------- the outbox of one step

  lemma {:induction false} SetEachKeepsPayloads(t: Table, us: seq<Update>)
    ensures SetEach(t, us).Keys == t.Keys
    ensures forall id <- t.Keys :: SetEach(t, us)[id].payload == t[id].payload
    decreases |us|
  {
    if us != [] {
      SetEachKeepsPayloads(if us[0].id in t then SetOne(t, us[0]).value else t, us[1..]);
    }
  }

  /** What an accepted command does to the outbox. */
  ghost function OutboxAfter(s: Db, now: Time, c: Command): Table {
    match c
    case Fetch(force) => Reset(s.outbox, force)
    case UpdateStatuses(us) => SetEach(s.outbox, us)
    case Cleanup(days) => Keep(s.outbox, Cutoff(now, days))
    case SaveProduct(p, snapshot, outboxId) =>
      var queued := EnqueueProduct(s.outbox, p, snapshot, outboxId, now);
      if queued == None then s.outbox else queued.value
    case Edit(id, _, _, _) =>
      if id in s.txns then RewriteEvent(s.outbox, now, id, OpsOf(s, c)[0].row) else s.outbox
    case Delete(id) => if id in s.txns then VoidOutbox(s.outbox, now, id, s.txns[id]) else s.outbox
    case MoveBucket(outId, inId, _, _, _, _, _, _) =>
      var ops := OpsOf(s, c);
      if ops == [] then s.outbox
      else s.outbox[TxnEvent(outId) := NewEvent(PayloadOf(outId, ops[0].row, now), now)]
                   [TxnEvent(inId) := NewEvent(PayloadOf(inId, ops[1].row, now), now)]
    case _ =>
      if OpsOf(s, c) == [] then s.outbox
      else var op := OpsOf(s, c)[0]; s.outbox[TxnEvent(op.id) := NewEvent(PayloadOf(op.id, op.row, now), now)]
  }

  lemma MoveOutbox(s: Db, now: Time, c: Command)
    requires c.MoveBucket? && TryMove(s, now, c).Ok?
    ensures TryMove(s, now, c).db.outbox == OutboxAfter(s, now, c)
  {
  }

  lemma EditOutbox(s: Db, now: Time, c: Command)
    requires (c.Edit? && TryEdit(s, now, c).Ok?) || (c.Delete? && TryDelete(s, now, c).Ok?)
    ensures Step(s, now, c).outbox == OutboxAfter(s, now, c)
  {
  }

  lemma StatusOutbox(s: Db, now: Time, c: Command)
    requires c.UpdateStatuses? && Try(s, now, c).Ok?
    ensures Step(s, now, c).outbox == OutboxAfter(s, now, c)
  {
    BatchRefinesSingles(s.outbox, c.updates);
  }

  lemma StepOutbox(s: Db, now: Time, c: Command)
    requires Try(s, now, c).Ok?
    ensures Step(s, now, c).outbox == OutboxAfter(s, now, c)
  {
    if IsSingleMovement(c) {
      var row := SingleMovement(s, now, c);
    } else if c.MoveBucket? {
      MoveOutbox(s, now, c);
    } else if c.Edit? || c.Delete? {
      EditOutbox(s, now, c);
    } else if c.Pull? {
      PullSetsQuantities(s, now, c.rows, Key("", "", Available));
    } else if c.UpdateStatuses? {
      StatusOutbox(s, now, c);
    }
  }

  // ---------------------------------------------------------------- no event is lost

  /** Any command, accepted or refused, keeps every event unless it archives it from a terminal status. */
  lemma StepKeepsEvents(s: Db, now: Time, c: Command, id: EventId)
    requires id in s.outbox && id !in Step(s, now, c).outbox
    ensures c.Cleanup? && IsTerminal(s.outbox[id].status) && s.outbox[id].createdAt < Cutoff(now, c.days)
  {
    StepOutbox(s, now, c);
    if c.UpdateStatuses? {
      SetEachKeepsPayloads(s.outbox, c.updates);
    }
  }

  /** A fetch leaves no row SENDING, whatever a push did before it. */
  lemma FetchLeavesNothingSending(s: Db, now: Time, force: bool, id: EventId)
    requires id in s.outbox
    ensures id in Step(s, now, Fetch(force)).outbox
    ensures Step(s, now, Fetch(force)).outbox[id].status != Sending
  {
    StepOutbox(s, now, Fetch(force));
  }

  ghost predicate ArchiveIsTerminal(j: Journal) {
    forall id <- j.archive.Keys :: IsTerminal(j.archive[id].status)
  }

  lemma AdvanceKeepsEvents(j: Journal, now: Time, c: Command)
    requires ArchiveIsTerminal(j)
    ensures ArchiveIsTerminal(Advance(j, now, c))
    ensures AllEvents(j).Keys <= AllEvents(Advance(j, now, c)).Keys
  {
    var after := Step(j.db, now, c).outbox;
    forall id | id in j.db.outbox && id !in after
      ensures IsTerminal(j.db.outbox[id].status)
    {
      StepKeepsEvents(j.db, now, c, id);
    }
  }

  /** Over any run every event ever queued is still in the outbox or was archived from a terminal status. */
  lemma {:induction false} NoEventIsLost(j: Journal, before: seq<Timed>, cs: seq<Timed>)
    requires ArchiveIsTerminal(j)
    ensures var mid := AdvanceAll(j, before); var end := AdvanceAll(mid, cs);
      && AllEvents(mid).Keys <= end.db.outbox.Keys + end.archive.Keys
      && ArchiveIsTerminal(end)
    decreases |before| + |cs|
  {
    if before != [] {
      AdvanceKeepsEvents(j, before[0].now, before[0].command);
      NoEventIsLost(Advance(j, before[0].now, before[0].command), before[1..], cs);
    } else if cs != [] {
      AdvanceKeepsEvents(j, cs[0].now, cs[0].command);
      NoEventIsLost(Advance(j, cs[0].now, cs[0].command), [], cs[1..]);
    }
  }
}
