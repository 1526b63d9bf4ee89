/** Product edits racing with pushes: the last edit always wins on delivery. */
module ProductEdits {
  import opened Types
  import opened Outbox

  predicate IsProductId(id: EventId) {
    id.ProductEvent? || id.ProductFollowUp?
  }

  /** The event belongs to the product. */
  predicate Own(id: EventId, p: string) {
    IsProductId(id) && id.product == p
  }

  /** Still to be delivered, or not known to be. */
  predicate IsOpen(e: Event) {
    e.status in {Pending, Sending}
  }

  function SnapshotOf(e: Event): string {
    if e.payload.ProductSnapshot? then e.payload.snapshot else ""
  }

  /** A product row of a batch with the payload read at the fetch. */
  type Flight = seq<(EventId, string)>

  /** The outbox, the local product rows, what the server was last given, and the push in progress. */
  datatype World = World(outbox: Table, local: map<string, string>, delivered: map<string, string>, flight: Flight)

  datatype Step =
    | Save(product: string, snapshot: string, outboxId: string, now: Time)
    | FetchAndMark(now: Time, limit: int, rows: seq<EventId>)
    | PushAnswered
    | PushThrew(reached: bool)
    | Archive(cutoff: Time)
    | Elsewhere(t: Table)

  /** The product rows of a batch, in batch order. */
  function FlightOf(t: Table, rows: seq<EventId>): Flight
    requires forall id <- rows :: id in t
    decreases |rows|
  {
    if rows == [] then []
    else (if IsProductId(rows[0]) then [(rows[0], SnapshotOf(t[rows[0]]))] else []) + FlightOf(t, rows[1..])
  }

  function MarkSending(t: Table, rows: seq<EventId>): Table {
    map id | id in t :: if id in rows then t[id].(status := Sending) else t[id]
  }

  predicate InFlight(flight: Flight, id: EventId) {
    exists i | 0 <= i < |flight| :: flight[i].0 == id
  }

  function MarkSynced(t: Table, flight: Flight): Table {
    map id | id in t ::
      if InFlight(flight, id) then t[id].(status := Synced, error := None, nextAttempt := None) else t[id]
  }

  /** The server takes the snapshots one after the other. */
  function Deliver(delivered: map<string, string>, flight: Flight): map<string, string>
    decreases |flight|
  {
    if flight == [] then delivered
    else
      var n := |flight| - 1;
      var before := Deliver(delivered, flight[..n]);
      if IsProductId(flight[n].0) then before[flight[n].0.product := flight[n].1] else before
  }

  /** The event an edit writes: the base event, or a follow-up while that one is in flight. */
  function Target(t: Table, p: string, outboxId: string): EventId {
    var base := ProductEvent(p);
    if base in t && t[base].status == Sending then ProductFollowUp(p, outboxId) else base
  }

  /** No other open event of the product is newer than an edit made now, or from the same second with
      another snapshot. */
  ghost predicate Wins(t: Table, p: string, x: EventId, snapshot: string, now: Time) {
    forall id <- t.Keys | Own(id, p) && id != x && IsOpen(t[id]) ::
      t[id].createdAt < now || (t[id].createdAt == now && SnapshotOf(t[id]) == snapshot)
  }

  /** What each step needs: an edit wins over the open events it does not overwrite and uses a new id, a batch
      is one the query may return, and other work leaves product events alone. */
  ghost predicate Allowed(w: World, e: Step) {
    match e
    case Save(p, snapshot, outboxId, now) =>
      ProductFollowUp(p, outboxId) !in w.outbox && Wins(w.outbox, p, Target(w.outbox, p, outboxId), snapshot, now)
    case FetchAndMark(now, limit, rows) => IsBatch(Reset(w.outbox, false), now, BatchLimit(limit), rows)
    case Elsewhere(t) =>
      && (forall id | IsProductId(id) :: id in t <==> id in w.outbox)
      && (forall id | IsProductId(id) && id in w.outbox :: t[id] == w.outbox[id])
    case _ => true
  }

  ghost function Next(w: World, e: Step): World
    requires Allowed(w, e)
  {
    match e
    case Save(p, snapshot, outboxId, now) =>
      (match EnqueueProduct(w.outbox, p, snapshot, outboxId, now)
       case None => w
       case Some(t) => w.(outbox := t, local := w.local[p := snapshot]))
    case FetchAndMark(now, limit, rows) =>
      var t := Reset(w.outbox, false);
      w.(outbox := MarkSending(t, rows), flight := FlightOf(t, rows))
    case PushAnswered =>
      w.(outbox := MarkSynced(w.outbox, w.flight), delivered := Deliver(w.delivered, w.flight), flight := [])
    case PushThrew(reached) => if reached then w.(delivered := Deliver(w.delivered, w.flight)) else w
    case Archive(cutoff) => w.(outbox := Keep(w.outbox, cutoff))
    case Elsewhere(t) => w.(outbox := t)
  }

  // ---------------------------------------------------------------- invariant

  /** The product's events carry its snapshots, and nothing in flight is newer than anything waiting. */
  ghost predicate Ordered(t: Table, p: string) {
    && (forall id <- t.Keys | Own(id, p) ::
          t[id].payload.ProductSnapshot? && t[id].status in {Pending, Sending, Synced})
    && (forall i <- t.Keys, j <- t.Keys | Own(i, p) && Own(j, p) && t[i].status == Sending && t[j].status == Pending ::
          t[i].createdAt <= t[j].createdAt)
  }

  ghost predicate IsNewestOpen(t: Table, p: string, id: EventId) {
    && id in t && Own(id, p) && IsOpen(t[id])
    && forall j <- t.Keys | Own(j, p) && IsOpen(t[j]) :: t[j].createdAt <= t[id].createdAt
  }

  ghost predicate NoneOpen(t: Table, p: string) {
    forall id <- t.Keys | Own(id, p) :: !IsOpen(t[id])
  }

  /** The newest open event is the local row; with none open the server has the local row. */
  ghost predicate UpToDate(w: World, p: string) {
    && (forall id | IsNewestOpen(w.outbox, p, id) :: p in w.local && SnapshotOf(w.outbox[id]) == w.local[p])
    && (NoneOpen(w.outbox, p) && p in w.local ==> p in w.delivered && w.delivered[p] == w.local[p])
  }

  /** The push in progress holds exactly the SENDING events of the product, oldest first, unchanged. */
  ghost predicate FlightMatches(w: World, p: string) {
    && (forall i | 0 <= i < |w.flight| && Own(w.flight[i].0, p) ::
          var (id, snapshot) := w.flight[i];
          id in w.outbox && w.outbox[id].status == Sending && SnapshotOf(w.outbox[id]) == snapshot)
    && (forall i, j | 0 <= i < j < |w.flight| && Own(w.flight[i].0, p) && Own(w.flight[j].0, p) ::
          w.outbox[w.flight[i].0].createdAt <= w.outbox[w.flight[j].0].createdAt)
    && (forall id <- w.outbox.Keys | Own(id, p) && w.outbox[id].status == Sending :: InFlight(w.flight, id))
  }

  ghost predicate Sound(w: World, p: string) {
    Ordered(w.outbox, p) && UpToDate(w, p) && FlightMatches(w, p)
  }

  // ---------------------------------------------------------------- batches and deliveries

  lemma {:induction false} FlightIsSnapshots(t: Table, rows: seq<EventId>, i: nat)
    requires (forall id <- rows :: id in t) && i < |FlightOf(t, rows)|
    ensures var (id, snapshot) := FlightOf(t, rows)[i];
      id in rows && IsProductId(id) && snapshot == SnapshotOf(t[id])
    decreases |rows|
  {
    if !IsProductId(rows[0]) {
      FlightIsSnapshots(t, rows[1..], i);
    } else if i > 0 {
      FlightIsSnapshots(t, rows[1..], i - 1);
    }
  }

  lemma {:induction false} FlightHolds(t: Table, rows: seq<EventId>, id: EventId)
    requires (forall r <- rows :: r in t) && id in rows && IsProductId(id)
    ensures InFlight(FlightOf(t, rows), id)
    decreases |rows|
  {
    var f, rest := FlightOf(t, rows), FlightOf(t, rows[1..]);
    if id == rows[0] {
      assert f[0].0 == id;
    } else {
      FlightHolds(t, rows[1..], id);
      var i :| 0 <= i < |rest| && rest[i].0 == id;
      assert f[if IsProductId(rows[0]) then i + 1 else i].0 == id;
    }
  }

  lemma {:induction false} FlightIsOrdered(t: Table, rows: seq<EventId>, i: nat, j: nat)
    requires (forall r <- rows :: r in t) && i < j < |FlightOf(t, rows)|
    requires forall a, b | 0 <= a < b < |rows| :: t[rows[a]].createdAt <= t[rows[b]].createdAt
    ensures var f := FlightOf(t, rows);
      f[i].0 in t && f[j].0 in t && t[f[i].0].createdAt <= t[f[j].0].createdAt
    decreases |rows|
  {
    FlightIsSnapshots(t, rows, i);
    FlightIsSnapshots(t, rows, j);
    if !IsProductId(rows[0]) {
      FlightIsOrdered(t, rows[1..], i, j);
    } else if i > 0 {
      FlightIsOrdered(t, rows[1..], i - 1, j - 1);
    }
  }

  lemma {:induction false} NoDelivery(delivered: map<string, string>, flight: Flight, p: string)
    requires forall f <- flight :: !Own(f.0, p)
    ensures p in Deliver(delivered, flight) <==> p in delivered
    ensures p in delivered ==> Deliver(delivered, flight)[p] == delivered[p]
    decreases |flight|
  {
    if flight != [] {
      NoDelivery(delivered, flight[..|flight| - 1], p);
    }
  }

  /** A product ends at the last of its snapshots in the list. */
  lemma {:induction false} LastDeliveryWins(delivered: map<string, string>, flight: Flight, p: string, last: nat)
    requires IsLastOwn(flight, p, last)
    ensures p in Deliver(delivered, flight) && Deliver(delivered, flight)[p] == flight[last].1
    decreases |flight|
  {
    var n := |flight| - 1;
    if last < n {
      LastDeliveryWins(delivered, flight[..n], p, last);
    }
  }

  ghost predicate IsLastOwn(flight: Flight, p: string, last: nat) {
    && last < |flight| && Own(flight[last].0, p)
    && forall j | last < j < |flight| :: !Own(flight[j].0, p)
  }

  /** The position of a product's last snapshot in a list that has one. */
  lemma {:induction false} LastOwn(flight: Flight, p: string, i: nat) returns (last: nat)
    requires i < |flight| && Own(flight[i].0, p)
    ensures i <= last && IsLastOwn(flight, p, last)
    decreases |flight| - i
  {
    if j :| i < j < |flight| && Own(flight[j].0, p) {
      last := LastOwn(flight, p, j);
    } else {
      last := i;
    }
  }

  // ---------------------------------------------------------------- each step keeps a product sound

  /** A product whose own events, local row and delivery are untouched stays sound. */
  lemma SameProduct(w: World, w': World, p: string)
    requires Sound(w, p) && w'.flight == w.flight
    requires forall id | Own(id, p) :: id in w'.outbox <==> id in w.outbox
    requires forall id | Own(id, p) && id in w.outbox :: w'.outbox[id] == w.outbox[id]
    requires p in w'.local <==> p in w.local
    requires p in w.local ==> w'.local[p] == w.local[p]
    requires NoneOpen(w.outbox, p) && p in w.delivered ==> p in w'.delivered && w'.delivered[p] == w.delivered[p]
    ensures Sound(w', p)
  {
    forall id | IsNewestOpen(w'.outbox, p, id)
      ensures p in w'.local && SnapshotOf(w'.outbox[id]) == w'.local[p]
    {
      assert IsNewestOpen(w.outbox, p, id);
    }
  }

  /** `t` with a new event of the product that wins over its other open ones, written over none in flight. */
  ghost predicate AddsNewest(t: Table, u: Table, x: EventId, snapshot: string, now: Time, p: string) {
    && Own(x, p) && (x in t ==> t[x].status != Sending)
    && u == t[x := NewEvent(ProductSnapshot(p, snapshot), now)]
    && Wins(t, p, x, snapshot, now)
  }

  lemma NewestKeepsOrdered(t: Table, u: Table, x: EventId, snapshot: string, now: Time, p: string)
    requires AddsNewest(t, u, x, snapshot, now, p) && Ordered(t, p)
    ensures Ordered(u, p)
  {
    forall i <- u.Keys | Own(i, p) && u[i].status == Sending
      ensures i != x && i in t && u[i].createdAt <= now
    {
    }
  }

  lemma NewestIsUpToDate(w: World, u: Table, x: EventId, snapshot: string, now: Time, p: string)
    requires AddsNewest(w.outbox, u, x, snapshot, now, p)
    ensures UpToDate(w.(outbox := u, local := w.local[p := snapshot]), p)
  {
    assert x in u && IsOpen(u[x]);
    forall id | IsNewestOpen(u, p, id)
      ensures SnapshotOf(u[id]) == snapshot
    {
      assert u[x].createdAt <= u[id].createdAt;
    }
  }

  lemma NewestIsNotInFlight(w: World, u: Table, x: EventId, snapshot: string, now: Time, p: string)
    requires AddsNewest(w.outbox, u, x, snapshot, now, p) && FlightMatches(w, p)
    ensures FlightMatches(w.(outbox := u, local := w.local[p := snapshot]), p)
  {
    forall i | 0 <= i < |w.flight| && Own(w.flight[i].0, p)
      ensures w.flight[i].0 in u && w.flight[i].0 != x
    {
    }
  }

  lemma SaveKeepsSound(w: World, e: Step, p: string)
    requires e.Save? && Allowed(w, e) && Sound(w, p)
    ensures Sound(Next(w, e), p)
  {
    var x := Target(w.outbox, e.product, e.outboxId);
    assert Next(w, e).outbox == w.outbox[x := NewEvent(ProductSnapshot(e.product, e.snapshot), e.now)];
    if e.product == p {
      var u := Next(w, e).outbox;
      NewestKeepsOrdered(w.outbox, u, x, e.snapshot, e.now, p);
      NewestIsUpToDate(w, u, x, e.snapshot, e.now, p);
      NewestIsNotInFlight(w, u, x, e.snapshot, e.now, p);
    } else {
      SameProduct(w, Next(w, e), p);
    }
  }

  /** Status changes among open events. */
  lemma SameOpen(w: World, w': World, p: string)
    requires UpToDate(w, p) && w'.local == w.local && w'.delivered == w.delivered
    requires w'.outbox.Keys == w.outbox.Keys
    requires forall id <- w.outbox.Keys | Own(id, p) ::
               && w'.outbox[id].payload == w.outbox[id].payload && w'.outbox[id].createdAt == w.outbox[id].createdAt
               && (IsOpen(w'.outbox[id]) <==> IsOpen(w.outbox[id]))
    ensures UpToDate(w', p)
  {
    forall id | IsNewestOpen(w'.outbox, p, id)
      ensures IsNewestOpen(w.outbox, p, id)
    {
    }
    assert NoneOpen(w'.outbox, p) ==> NoneOpen(w.outbox, p);
  }

  lemma FetchedFlightMatches(w: World, e: Step, p: string)
    requires e.FetchAndMark? && Allowed(w, e)
    ensures FlightMatches(Next(w, e), p)
  {
    var t, w' := Reset(w.outbox, false), Next(w, e);
    forall i | 0 <= i < |w'.flight|
      ensures w'.flight[i].0 in e.rows && w'.flight[i].1 == SnapshotOf(t[w'.flight[i].0])
    {
      FlightIsSnapshots(t, e.rows, i);
    }
    forall i, j | 0 <= i < j < |w'.flight|
      ensures w'.outbox[w'.flight[i].0].createdAt <= w'.outbox[w'.flight[j].0].createdAt
    {
      FlightIsOrdered(t, e.rows, i, j);
    }
    forall id <- w'.outbox.Keys | Own(id, p) && w'.outbox[id].status == Sending
      ensures InFlight(w'.flight, id)
    {
      FlightHolds(t, e.rows, id);
    }
  }

  /** A fetch moves events between PENDING and SENDING only. */
  lemma FetchKeepsOpen(w: World, e: Step, p: string)
    requires e.FetchAndMark? && Allowed(w, e) && Ordered(w.outbox, p)
    ensures var t := Next(w, e).outbox;
      && t.Keys == w.outbox.Keys
      && forall id <- t.Keys | Own(id, p) ::
           && t[id].payload == w.outbox[id].payload && t[id].createdAt == w.outbox[id].createdAt
           && (IsOpen(t[id]) <==> IsOpen(w.outbox[id]))
           && t[id].status in {Pending, Sending, Synced}
           && (t[id].status == Sending <==> id in e.rows)
           && (t[id].status == Pending ==> Eligible(Reset(w.outbox, false)[id], e.now))
  {
  }

  lemma FetchKeepsOrdered(w: World, e: Step, p: string)
    requires e.FetchAndMark? && Allowed(w, e) && Ordered(w.outbox, p)
    ensures Ordered(Next(w, e).outbox, p)
  {
    FetchKeepsOpen(w, e, p);
    var r, t := Reset(w.outbox, false), Next(w, e).outbox;
    forall i <- t.Keys, j <- t.Keys | Own(i, p) && Own(j, p) && t[i].status == Sending && t[j].status == Pending
      ensures t[i].createdAt <= t[j].createdAt
    {
      assert r[i].createdAt <= r[j].createdAt;
    }
  }

  lemma FetchKeepsSound(w: World, e: Step, p: string)
    requires e.FetchAndMark? && Allowed(w, e) && Sound(w, p)
    ensures Sound(Next(w, e), p)
  {
    FetchKeepsOrdered(w, e, p);
    FetchedFlightMatches(w, e, p);
    FetchKeepsOpen(w, e, p);
    SameOpen(w, Next(w, e), p);
  }

  /** A push answers for every open event that its answer closes. */
  lemma OnlyFlightCloses(t: Table, flight: Flight, p: string, id: EventId) returns (i: nat)
    requires NoneOpen(MarkSynced(t, flight), p) && id in t && Own(id, p) && IsOpen(t[id])
    ensures i < |flight| && flight[i].0 == id
  {
    assert id in MarkSynced(t, flight) && InFlight(flight, id);
    i :| 0 <= i < |flight| && flight[i].0 == id;
  }

  /** With nothing of the product waiting, the last of its events in flight is its newest. */
  lemma LastInFlightIsNewest(w: World, p: string, last: nat)
    requires FlightMatches(w, p) && NoneOpen(MarkSynced(w.outbox, w.flight), p) && IsLastOwn(w.flight, p, last)
    ensures IsNewestOpen(w.outbox, p, w.flight[last].0)
  {
    var newest := w.flight[last].0;
    forall j <- w.outbox.Keys | Own(j, p) && IsOpen(w.outbox[j])
      ensures w.outbox[j].createdAt <= w.outbox[newest].createdAt
    {
      var i := OnlyFlightCloses(w.outbox, w.flight, p, j);
      assert i <= last;
    }
  }

  /** What still waits after an answered push was newer than everything in flight. */
  lemma NewestWaiting(w: World, p: string, id: EventId)
    requires Sound(w, p) && IsNewestOpen(MarkSynced(w.outbox, w.flight), p, id)
    ensures IsNewestOpen(w.outbox, p, id)
  {
    var t := MarkSynced(w.outbox, w.flight);
    assert !InFlight(w.flight, id) && w.outbox[id].status == Pending;
    forall j <- w.outbox.Keys | Own(j, p) && IsOpen(w.outbox[j])
      ensures w.outbox[j].createdAt <= w.outbox[id].createdAt
    {
      if w.outbox[j].status == Pending {
        assert !InFlight(w.flight, j);
        assert IsOpen(t[j]);
      }
    }
  }

  lemma AnswerKeepsUpToDate(w: World, p: string)
    requires Sound(w, p)
    ensures UpToDate(Next(w, PushAnswered), p)
  {
    var w' := Next(w, PushAnswered);
    forall id | IsNewestOpen(w'.outbox, p, id)
      ensures p in w'.local && SnapshotOf(w'.outbox[id]) == w'.local[p]
    {
      NewestWaiting(w, p, id);
    }
    if NoneOpen(w'.outbox, p) && p in w.local {
      if i :| 0 <= i < |w.flight| && Own(w.flight[i].0, p) {
        var last := LastOwn(w.flight, p, i);
        LastInFlightIsNewest(w, p, last);
        LastDeliveryWins(w.delivered, w.flight, p, last);
      } else {
        NoDelivery(w.delivered, w.flight, p);
        assert NoneOpen(w.outbox, p) by {
          forall j <- w.outbox.Keys | Own(j, p)
            ensures !IsOpen(w.outbox[j])
          {
            assert !InFlight(w.flight, j);
            assert !IsOpen(w'.outbox[j]);
          }
        }
      }
    }
  }

  lemma AnswerKeepsSound(w: World, p: string)
    requires Sound(w, p)
    ensures Sound(Next(w, PushAnswered), p)
  {
    AnswerKeepsUpToDate(w, p);
    var t := Next(w, PushAnswered).outbox;
    forall id <- t.Keys | Own(id, p)
      ensures t[id].status != Sending && t[id].createdAt == w.outbox[id].createdAt
              && t[id].payload == w.outbox[id].payload
    {
    }
  }

  lemma ThrewKeepsSound(w: World, reached: bool, p: string)
    requires Sound(w, p)
    ensures Sound(Next(w, PushThrew(reached)), p)
  {
    if NoneOpen(w.outbox, p) {
      forall f <- w.flight
        ensures !Own(f.0, p)
      {
        var i :| 0 <= i < |w.flight| && w.flight[i] == f;
      }
      NoDelivery(w.delivered, w.flight, p);
    }
    SameProduct(w, Next(w, PushThrew(reached)), p);
  }

  /** A table that lost only settled events. */
  ghost predicate Prunes(t: Table, u: Table) {
    && u.Keys <= t.Keys
    && (forall id <- u.Keys :: u[id] == t[id])
    && (forall id <- t.Keys | IsOpen(t[id]) :: id in u)
  }

  lemma PruneKeepsUpToDate(w: World, u: Table, p: string)
    requires Prunes(w.outbox, u) && UpToDate(w, p)
    ensures UpToDate(w.(outbox := u), p)
  {
    forall id | IsNewestOpen(u, p, id)
      ensures IsNewestOpen(w.outbox, p, id)
    {
    }
    assert NoneOpen(u, p) ==> NoneOpen(w.outbox, p);
  }

  lemma PruneKeepsOrdered(t: Table, u: Table, p: string)
    requires Prunes(t, u) && Ordered(t, p)
    ensures Ordered(u, p)
  {
  }

  lemma PruneKeepsFlight(w: World, u: Table, p: string)
    requires Prunes(w.outbox, u) && FlightMatches(w, p)
    ensures FlightMatches(w.(outbox := u), p)
  {
    forall i | 0 <= i < |w.flight| && Own(w.flight[i].0, p)
      ensures w.flight[i].0 in u && u[w.flight[i].0] == w.outbox[w.flight[i].0]
    {
      assert IsOpen(w.outbox[w.flight[i].0]);
    }
  }

  lemma PruneKeepsSound(w: World, u: Table, p: string)
    requires Prunes(w.outbox, u) && Sound(w, p)
    ensures Sound(w.(outbox := u), p)
  {
    PruneKeepsOrdered(w.outbox, u, p);
    PruneKeepsUpToDate(w, u, p);
    PruneKeepsFlight(w, u, p);
  }

  lemma ArchivePrunes(t: Table, cutoff: Time)
    ensures Prunes(t, Keep(t, cutoff))
  {
  }

  lemma ArchiveKeepsSound(w: World, cutoff: Time, p: string)
    requires Sound(w, p)
    ensures Sound(Next(w, Archive(cutoff)), p)
  {
    ArchivePrunes(w.outbox, cutoff);
    PruneKeepsSound(w, Keep(w.outbox, cutoff), p);
  }

  lemma NextKeepsSound(w: World, e: Step, p: string)
    requires Allowed(w, e) && Sound(w, p)
    ensures Sound(Next(w, e), p)
  {
    match e
    case Save(_, _, _, _) => SaveKeepsSound(w, e, p);
    case FetchAndMark(_, _, _) => FetchKeepsSound(w, e, p);
    case PushAnswered => AnswerKeepsSound(w, p);
    case PushThrew(reached) => ThrewKeepsSound(w, reached, p);
    case Archive(cutoff) => ArchiveKeepsSound(w, cutoff, p);
    case Elsewhere(t) => SameProduct(w, Next(w, e), p);
  }

  // ---------------------------------------------------------------- runs

  ghost predicate AllowedRun(w: World, es: seq<Step>)
    decreases |es|
  {
    es == [] || (Allowed(w, es[0]) && AllowedRun(Next(w, es[0]), es[1..]))
  }

  ghost function RunOf(w: World, es: seq<Step>): World
    requires AllowedRun(w, es)
    decreases |es|
  {
    if es == [] then w else RunOf(Next(w, es[0]), es[1..])
  }

  lemma {:induction false} RunKeepsSound(w: World, es: seq<Step>, p: string)
    requires AllowedRun(w, es) && Sound(w, p)
    ensures Sound(RunOf(w, es), p)
    decreases |es|
  {
    if es != [] {
      NextKeepsSound(w, es[0], p);
      RunKeepsSound(Next(w, es[0]), es[1..], p);
    }
  }

  /** The product's open events, oldest first. */
  ghost predicate IsDrain(t: Table, p: string, order: seq<EventId>) {
    && (forall id <- order :: id in t && Own(id, p) && IsOpen(t[id]))
    && (forall id <- t.Keys | Own(id, p) && IsOpen(t[id]) :: id in order)
    && (forall i, j | 0 <= i < j < |order| :: t[order[i]].createdAt <= t[order[j]].createdAt)
  }

  /** The last event of a drain is the newest. */
  lemma DrainEndsAtNewest(t: Table, p: string, order: seq<EventId>)
    requires IsDrain(t, p, order) && order != []
    ensures IsNewestOpen(t, p, order[|order| - 1])
  {
    forall id <- t.Keys | Own(id, p) && IsOpen(t[id])
      ensures t[id].createdAt <= t[order[|order| - 1]].createdAt
    {
      var i :| 0 <= i < |order| && order[i] == id;
    }
  }

  lemma {:induction false} FlightOfProducts(t: Table, rows: seq<EventId>)
    requires forall id <- rows :: id in t && IsProductId(id)
    ensures |FlightOf(t, rows)| == |rows|
    ensures rows != [] ==> FlightOf(t, rows)[|rows| - 1] == (rows[|rows| - 1], SnapshotOf(t[rows[|rows| - 1]]))
    decreases |rows|
  {
    if rows != [] {
      FlightOfProducts(t, rows[1..]);
    }
  }

  /** Delivering these events leaves the server with this snapshot of the product. */
  predicate EndsAt(delivered: map<string, string>, t: Table, order: seq<EventId>, p: string, snapshot: string)
    requires forall id <- order :: id in t
  {
    var served := Deliver(delivered, FlightOf(t, order));
    p in served && served[p] == snapshot
  }

  lemma DrainEndsAtLast(delivered: map<string, string>, t: Table, order: seq<EventId>, p: string)
    requires order != [] && IsDrain(t, p, order)
    ensures EndsAt(delivered, t, order, p, SnapshotOf(t[order[|order| - 1]]))
  {
    FlightOfProducts(t, order);
    LastDeliveryWins(delivered, FlightOf(t, order), p, |order| - 1);
  }

  lemma {:induction false} DrainIsUpToDate(w: World, p: string, order: seq<EventId>)
    requires UpToDate(w, p) && p in w.local && IsDrain(w.outbox, p, order)
    ensures EndsAt(w.delivered, w.outbox, order, p, w.local[p])
  {
    if order == [] {
      assert NoneOpen(w.outbox, p);
    } else {
      DrainEndsAtNewest(w.outbox, p, order);
      DrainEndsAtLast(w.delivered, w.outbox, order, p);
    }
  }

  /** After any interleaving of edits, fetches and pushes, delivering what is left of a product in
      created_at order ends at the current local row, whatever the server already has. */
  lemma DrainEndsAtLocalRow(w: World, es: seq<Step>, p: string, order: seq<EventId>)
    requires AllowedRun(w, es) && Sound(w, p)
    requires p in RunOf(w, es).local && IsDrain(RunOf(w, es).outbox, p, order)
    ensures var end := RunOf(w, es); EndsAt(end.delivered, end.outbox, order, p, end.local[p])
  {
    RunKeepsSound(w, es, p);
    DrainIsUpToDate(RunOf(w, es), p, order);
  }

  // ---------------------------------------------------------------- edits in one second

  ghost function OpenEvents(t: Table, p: string): set<EventId> {
    set id | id in t && Own(id, p) && IsOpen(t[id])
  }

  ghost predicate IsListing(t: Table, ids: set<EventId>, order: seq<EventId>) {
    && (forall id :: id in order <==> id in ids)
    && (forall id <- ids :: id in t)
    && (forall i, j | 0 <= i < j < |order| :: t[order[i]].createdAt <= t[order[j]].createdAt)
  }

  /** The youngest of a set of events. */
  lemma {:induction false} Youngest(t: Table, ids: set<EventId>) returns (y: EventId)
    requires ids != {} && forall id <- ids :: id in t
    ensures y in ids && forall id <- ids :: t[id].createdAt <= t[y].createdAt
    decreases ids
  {
    var a :| a in ids;
    y := a;
    if ids != {a} {
      var b := Youngest(t, ids - {a});
      if t[a].createdAt < t[b].createdAt {
        y := b;
      }
    }
  }

  lemma {:induction false} ListingExists(t: Table, ids: set<EventId>) returns (order: seq<EventId>)
    requires forall id <- ids :: id in t
    ensures IsListing(t, ids, order)
    decreases ids
  {
    order := [];
    if ids != {} {
      var y := Youngest(t, ids);
      var init := ListingExists(t, ids - {y});
      order := ListingEnds(t, ids, y, init);
    }
  }

  lemma ListingEnds(t: Table, ids: set<EventId>, y: EventId, init: seq<EventId>) returns (order: seq<EventId>)
    requires (forall id <- ids :: id in t) && y in ids && forall id <- ids :: t[id].createdAt <= t[y].createdAt
    requires IsListing(t, ids - {y}, init)
    ensures order == init + [y] && IsListing(t, ids, order)
  {
    order := init + [y];
    forall i | 0 <= i < |init|
      ensures init[i] in ids
    {
      assert init[i] in init;
    }
  }

  /** An open event that is as young as any can come last. */
  lemma DrainCanEndAt(t: Table, p: string, y: EventId) returns (order: seq<EventId>)
    requires IsNewestOpen(t, p, y)
    ensures IsDrain(t, p, order) && order != [] && order[|order| - 1] == y
  {
    var ids := OpenEvents(t, p);
    var init := ListingExists(t, ids - {y});
    order := ListingEnds(t, ids, y, init);
    assert forall id <- order :: id in ids;
    assert forall id <- t.Keys | Own(id, p) && IsOpen(t[id]) :: id in ids;
  }

  ghost predicate AlwaysEndsAt(delivered: map<string, string>, t: Table, p: string, snapshot: string) {
    forall order | IsDrain(t, p, order) :: EndsAt(delivered, t, order, p, snapshot)
  }

  /** Exactly when an edit is sure to be delivered last: no other open event of the product shares its second
      and holds another snapshot. The clock may stand still but not run backwards. */
  lemma EditIsDeliveredLast(delivered: map<string, string>, t: Table, p: string, snapshot: string, outboxId: string,
                            now: Time)
    requires ProductFollowUp(p, outboxId) !in t
    requires forall id <- t.Keys | Own(id, p) && IsOpen(t[id]) :: t[id].createdAt <= now
    ensures EnqueueProduct(t, p, snapshot, outboxId, now).Some?
    ensures AlwaysEndsAt(delivered, EnqueueProduct(t, p, snapshot, outboxId, now).value, p, snapshot)
            <==> forall id <- t.Keys | Own(id, p) && id != Target(t, p, outboxId) && IsOpen(t[id]) ::
                   t[id].createdAt == now ==> SnapshotOf(t[id]) == snapshot
  {
    var x, u := Target(t, p, outboxId), EnqueueProduct(t, p, snapshot, outboxId, now).value;
    assert u == t[x := NewEvent(ProductSnapshot(p, snapshot), now)];
    if Wins(t, p, x, snapshot, now) {
      EditWins(delivered, t, u, x, p, snapshot, now);
    } else {
      var y :| y in t && Own(y, p) && y != x && IsOpen(t[y])
        && !(t[y].createdAt < now || (t[y].createdAt == now && SnapshotOf(t[y]) == snapshot));
      EditCanLose(delivered, t, u, x, y, p, snapshot, now);
    }
  }

  lemma EditWins(delivered: map<string, string>, t: Table, u: Table, x: EventId, p: string, snapshot: string, now: Time)
    requires AddsNewest(t, u, x, snapshot, now, p)
    ensures AlwaysEndsAt(delivered, u, p, snapshot)
  {
    var w := World(t, map[], delivered, []);
    NewestIsUpToDate(w, u, x, snapshot, now, p);
    forall order | IsDrain(u, p, order)
      ensures EndsAt(delivered, u, order, p, snapshot)
    {
      DrainIsUpToDate(w.(outbox := u, local := w.local[p := snapshot]), p, order);
    }
  }

  lemma EditCanLose(delivered: map<string, string>, t: Table, u: Table, x: EventId, y: EventId, p: string,
                    snapshot: string, now: Time)
    requires u == t[x := NewEvent(ProductSnapshot(p, snapshot), now)] && Own(x, p)
    requires y in t && Own(y, p) && y != x && IsOpen(t[y]) && t[y].createdAt == now && SnapshotOf(t[y]) != snapshot
    requires forall id <- t.Keys | Own(id, p) && IsOpen(t[id]) :: t[id].createdAt <= now
    ensures !AlwaysEndsAt(delivered, u, p, snapshot)
  {
    var order := DrainCanEndAt(u, p, y);
    DrainEndsAtLast(delivered, u, order, p);
    assert !EndsAt(delivered, u, order, p, snapshot);
  }

  /** Runs start here. */
  lemma EmptyWorldIsSound(p: string)
    ensures Sound(World(map[], map[], map[], []), p)
  {
  }

  /** An instance: after an edit made in the same second as the event in flight, the query may return the two
      in either order, and the older snapshot may be delivered last. */
  lemma SameSecondEditCanLose(p: string, first: string, second: string, outboxId: string, now: Time)
    ensures
      var base, followUp := ProductEvent(p), ProductFollowUp(p, outboxId);
      var t := map[base := NewEvent(ProductSnapshot(p, first), now).(status := Sending)];
      var queued := EnqueueProduct(t, p, second, outboxId, now);
      && queued.Some?
      && IsDrain(queued.value, p, [followUp, base])
      && Deliver(map[], FlightOf(queued.value, [followUp, base])) == map[p := first]
  {
    var base, followUp := ProductEvent(p), ProductFollowUp(p, outboxId);
    var t := map[base := NewEvent(ProductSnapshot(p, first), now).(status := Sending)];
    var u := EnqueueProduct(t, p, second, outboxId, now).value;
    var f := FlightOf(u, [followUp, base]);
    assert [followUp, base][1..] == [base] && [base][1..] == [];
    assert FlightOf(u, [base]) == [(base, first)];
    assert f == [(followUp, second), (base, first)];
    assert f[..1] == [(followUp, second)] && f[..1][..0] == [];
    assert Deliver(map[], f[..1]) == map[p := second];
  }
}
