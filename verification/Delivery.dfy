/** What one pass of a sync run does to the outbox table. */
module Delivery {
  import opened Types
  import opened Sums
  import opened Outbox
  import opened PushOrder

  /** A push receipt; the server may leave the reason of a rejection out. */
  datatype Receipt = Receipt(accepted: bool, reason: Option<Reason>)

  /** The outcome of a push request: an error, or the receipts by transaction id. */
  datatype Answer = Threw | Answered(receipts: map<string, Receipt>)

  datatype Push = Push(items: seq<Item>, products: seq<EventId>, answer: Answer)

  /** _buildPushItem for a payload that parses. */
  function ItemOf(id: EventId, p: Payload): Item
    requires p.Movement?
  {
    Item(id, p.txn, p.key, Some(p.movement), p.delta, p.occurredAt)
  }

  /** What a receipt, or its absence, makes of an event. */
  function Verdict(item: Item, receipts: map<string, Receipt>): (Status, Option<Text>) {
    if item.txn !in receipts then (Retryable, Some(NoReceipt))
    else if receipts[item.txn].accepted then (Synced, None)
    else
      var reason := if receipts[item.txn].reason.Some? then receipts[item.txn].reason.value else Unstated;
      (if reason.Validation? then Rejected else Retryable, Some(RejectedByServer(reason)))
  }

  /** The status and error an event earns with the answer to its request. */
  predicate Earned(status: Status, error: Option<Text>, txn: string, receipts: map<string, Receipt>) {
    if txn !in receipts then status == Retryable && error == Some(NoReceipt)
    else if receipts[txn].accepted then status == Synced && error == None
    else
      match receipts[txn].reason
      case Some(Validation(complaint, rest)) =>
        status == Rejected && error == Some(RejectedByServer(Validation(complaint, rest)))
      case Some(Other(text)) => status == Retryable && error == Some(RejectedByServer(Other(text)))
      case Some(Unstated) => status == Retryable && error == Some(RejectedByServer(Unstated))
      case None => status == Retryable && error == Some(RejectedByServer(Unstated))
  }

  lemma VerdictIsEarned(item: Item, receipts: map<string, Receipt>)
    ensures Earned(Verdict(item, receipts).0, Verdict(item, receipts).1, item.txn, receipts)
  {
  }

  /** The refusals that may pass: those without a validation message of the server. */
  function Passing(items: seq<Item>, receipts: map<string, Receipt>): nat {
    if items == [] then 0
    else
      var txn := items[|items| - 1].txn;
      Passing(items[..|items| - 1], receipts)
      + if txn in receipts && !receipts[txn].accepted
           && (receipts[txn].reason.Some? ==> !receipts[txn].reason.value.Validation?) then 1 else 0
  }

  lemma {:induction false} DeferredArePassing(items: seq<Item>, receipts: map<string, Receipt>)
    ensures Deferred(items, Answered(receipts)) == Passing(items, receipts)
  {
    if items != [] {
      DeferredArePassing(items[..|items| - 1], receipts);
    }
  }

  predicate HasReceipt(item: Item, a: Answer) {
    a.Answered? && item.txn in a.receipts
  }

  predicate IsAccepted(item: Item, a: Answer) {
    HasReceipt(item, a) && a.receipts[item.txn].accepted
  }

  predicate IsRefused(item: Item, a: Answer) {
    HasReceipt(item, a) && !a.receipts[item.txn].accepted
  }

  /** Refused for a reason that may pass. */
  predicate IsDeferred(item: Item, a: Answer) {
    IsRefused(item, a) && Verdict(item, a.receipts).0 == Retryable
  }

  function Refused(items: seq<Item>, a: Answer): nat {
    if items == [] then 0
    else Refused(items[..|items| - 1], a) + if IsRefused(items[|items| - 1], a) then 1 else 0
  }

  function Deferred(items: seq<Item>, a: Answer): nat {
    if items == [] then 0
    else Deferred(items[..|items| - 1], a) + if IsDeferred(items[|items| - 1], a) then 1 else 0
  }

  lemma {:induction false} NoneRefused(items: seq<Item>, a: Answer)
    ensures Refused(items, a) == 0 <==> forall x <- items :: !IsRefused(x, a)
  {
    if items != [] {
      NoneRefused(items[..|items| - 1], a);
      assert items == items[..|items| - 1] + [items[|items| - 1]];
    }
  }

  /** What makes a run partial: a receipt that says no. */
  lemma RefusedMeans(items: seq<Item>, a: Answer)
    ensures Refused(items, a) > 0 <==>
      exists x <- items :: a.Answered? && x.txn in a.receipts && !a.receipts[x.txn].accepted
  {
    NoneRefused(items, a);
  }

  // ---------------------------------------------------------------- status writes of a batch

  /** update_outbox_event_statuses with its error caught: all of the list or nothing. */
  function Written(t: Table, us: seq<Update>): Table {
    match SetAll(t, us)
    case None => t
    case Some(u) => u
  }

  lemma WrittenPointwise(t: Table, us: seq<Update>)
    requires forall u <- us :: u.id in t
    requires forall i, j | 0 <= i < j < |us| :: us[i].id != us[j].id
    ensures Written(t, us).Keys == t.Keys
    ensures forall i | 0 <= i < |us| :: Written(t, us)[us[i].id] == Transition(t[us[i].id], us[i])
    ensures forall id <- t.Keys | (forall u <- us :: u.id != id) :: Written(t, us)[id] == t[id]
  {
    BatchRefinesSingles(t, us);
    SetEachPointwise(t, us);
  }

  /** The same change asked for each of the events; the clock is read as each change is applied. */
  function Marks(ids: seq<EventId>, target: Status, error: Option<Text>, clock: nat -> Time, tick: nat): seq<Update> {
    seq(|ids|, i requires 0 <= i < |ids| => Update(ids[i], target, error, clock(tick + i)))
  }

  /** What a status write applied at `now` or later makes of an event: a retry is put off until its
      backoff has passed. */
  predicate Took(before: Event, after: Event, target: Status, error: Option<Text>, now: Time) {
    match target
    case Retryable =>
      && after.nextAttempt.Some? && after.nextAttempt.value >= now + DelaySeconds(before.retries + 1)
      && after == before.(status := Retryable, retries := before.retries + 1,
                          nextAttempt := after.nextAttempt, error := error)
    case Accepted | Synced => after == before.(status := target, error := None, nextAttempt := None)
    case Rejected | Review => after == before.(status := target, error := error)
    case Pending | Sending => after == before.(status := target)
  }

  lemma WrittenTakes(t: Table, us: seq<Update>, now: Time)
    requires forall i | 0 <= i < |us| :: us[i].id in t && us[i].at >= now
    requires forall i, j | 0 <= i < j < |us| :: us[i].id != us[j].id
    ensures var w := Written(t, us);
      && w.Keys == t.Keys
      && (forall i | 0 <= i < |us| :: Took(t[us[i].id], w[us[i].id], us[i].target, us[i].error, now))
      && (forall id <- t.Keys | (forall u <- us :: u.id != id) :: w[id] == t[id])
  {
    WrittenPointwise(t, us);
    forall i | 0 <= i < |us|
      ensures Took(t[us[i].id], Written(t, us)[us[i].id], us[i].target, us[i].error, now)
    {
      assert Written(t, us)[us[i].id] == Transition(t[us[i].id], us[i]);
    }
  }

  /** Every reading from this one on is `now` or later. */
  ghost predicate TicksFrom(clock: nat -> Time, now: Time, tick: nat) {
    forall n: nat | tick <= n :: now <= clock(n)
  }

  lemma MarksAt(ids: seq<EventId>, target: Status, error: Option<Text>, clock: nat -> Time, tick: nat, i: nat)
    requires i < |ids|
    ensures |Marks(ids, target, error, clock, tick)| == |ids|
    ensures Marks(ids, target, error, clock, tick)[i] == Update(ids[i], target, error, clock(tick + i))
  {
  }

  lemma MarksSkip(ids: seq<EventId>, target: Status, error: Option<Text>, clock: nat -> Time, tick: nat, id: EventId)
    requires id !in ids
    ensures forall u <- Marks(ids, target, error, clock, tick) :: u.id != id
  {
    var us := Marks(ids, target, error, clock, tick);
    forall i: nat | i < |us|
      ensures us[i].id != id
    {
      MarksAt(ids, target, error, clock, tick, i);
    }
  }

  lemma MarksTake(t: Table, ids: seq<EventId>, target: Status, error: Option<Text>, clock: nat -> Time, tick: nat,
                  now: Time)
    requires NoDuplicates(ids) && forall id <- ids :: id in t
    requires TicksFrom(clock, now, tick)
    ensures var w := Written(t, Marks(ids, target, error, clock, tick));
      && w.Keys == t.Keys
      && forall id <- t.Keys :: if id in ids then Took(t[id], w[id], target, error, now) else w[id] == t[id]
  {
    var us := Marks(ids, target, error, clock, tick);
    forall i: nat | i < |us|
      ensures us[i] == Update(ids[i], target, error, clock(tick + i)) && ids[i] in ids
    {
      MarksAt(ids, target, error, clock, tick, i);
    }
    WrittenTakes(t, us, now);
    forall id <- t.Keys
      ensures if id in ids then Took(t[id], Written(t, us)[id], target, error, now) else Written(t, us)[id] == t[id]
    {
      if id in ids {
        var i :| 0 <= i < |ids| && ids[i] == id;
        assert us[i].id == id;
      } else {
        MarksSkip(ids, target, error, clock, tick, id);
      }
    }
  }

  // ---------------------------------------------------------------- one event through one pass

  /** What a pass at `now` made of one of its events. */
  predicate Handled(id: EventId, before: Event, after: Event, push: Push, now: Time) {
    match before.payload
    case Unreadable => Took(before, after, Rejected, Some(NotParsed), now)
    case ProductSnapshot(_, _) =>
      && id in push.products
      && Took(before, after, if push.answer.Threw? then Sending else Synced, None, now)
    case Movement(_, _, _, _, _, _, _) =>
      var item := ItemOf(id, before.payload);
      && item in push.items
      && if push.answer.Threw? then
           Took(before, after, Sending, None, now) || Took(before, after, Retryable, Some(PushFailed), now)
         else
           var (status, error) := Verdict(item, push.answer.receipts);
           Took(before, after, status, error, now)
  }

  ghost predicate PassDone(t: Table, rows: seq<EventId>, push: Push, now: Time, u: Table) {
    && u.Keys == t.Keys
    && (forall id <- rows :: id in t)
    && (forall id <- t.Keys :: if id in rows then Handled(id, t[id], u[id], push, now) else u[id] == t[id])
  }

  /** Every movement of an answered push ends as its receipt says, and one put off waits for its backoff. */
  lemma PushedMovementEnds(t: Table, rows: seq<EventId>, push: Push, now: Time, u: Table, id: EventId)
    requires PassDone(t, rows, push, now, u) && push.answer.Answered?
    requires id in rows && t[id].payload.Movement?
    ensures Earned(u[id].status, u[id].error, t[id].payload.txn, push.answer.receipts)
    ensures u[id].payload == t[id].payload && u[id].createdAt == t[id].createdAt
    ensures u[id].status == Retryable ==>
              && u[id].retries == t[id].retries + 1 && u[id].nextAttempt.Some?
              && u[id].nextAttempt.value >= now + DelaySeconds(t[id].retries + 1)
    ensures u[id].status != Retryable ==> u[id].retries == t[id].retries
  {
    assert Handled(id, t[id], u[id], push, now);
    VerdictIsEarned(ItemOf(id, t[id].payload), push.answer.receipts);
  }

  // ---------------------------------------------------------------- how often a run can try an event

  /** The retry count from which the wrapped delay is zero. */
  const LAST_DELAYED := 64

  /** Attempts an event with these retries has from `due` up to the horizon if each one fails and is put off
      by its own backoff. */
  function Chain(retries: int, due: Time, horizon: Time): nat
    decreases LAST_DELAYED - retries
  {
    if due > horizon then 0
    else if retries >= LAST_DELAYED then 1
    else 1 + Chain(retries + 1, due + DelaySeconds(retries + 1), horizon)
  }

  /** Those attempts reach past the horizon before the delay collapses. */
  predicate Passes(retries: int, due: Time, horizon: Time)
    decreases LAST_DELAYED - retries
  {
    due > horizon || (retries < LAST_DELAYED && Passes(retries + 1, due + DelaySeconds(retries + 1), horizon))
  }

  function DueAt(e: Event, now: Time): Time {
    if e.status == Retryable && e.nextAttempt.Some? && e.nextAttempt.value > now then e.nextAttempt.value else now
  }

  function Attempts(e: Event, now: Time, horizon: Time): nat {
    if IsTerminal(e.status) then 0 else Chain(e.retries, DueAt(e, now), horizon)
  }

  /** The event cannot reach the retry count where the delay is zero before the horizon. */
  predicate RetriesFit(e: Event, now: Time, horizon: Time) {
    IsTerminal(e.status) || Passes(e.retries, DueAt(e, now), horizon)
  }

  function Weight(now: Time, horizon: Time): (EventId, Event) -> int {
    (_: EventId, e: Event) => Attempts(e, now, horizon)
  }

  ghost function Total(t: Table, now: Time, horizon: Time): int {
    Weigh(t, Weight(now, horizon))
  }

  lemma {:induction false} ChainDrops(retries: int, a: Time, b: Time, horizon: Time)
    requires a <= b
    ensures Chain(retries, b, horizon) <= Chain(retries, a, horizon)
    ensures Passes(retries, a, horizon) ==> Passes(retries, b, horizon)
    decreases LAST_DELAYED - retries
  {
    if b <= horizon && retries < LAST_DELAYED {
      ChainDrops(retries + 1, a + DelaySeconds(retries + 1), b + DelaySeconds(retries + 1), horizon);
    }
  }

  lemma WaitingDrops(e: Event, now: Time, later: Time, horizon: Time)
    requires now <= later
    ensures Attempts(e, later, horizon) <= Attempts(e, now, horizon)
    ensures RetriesFit(e, now, horizon) ==> RetriesFit(e, later, horizon)
  {
    ChainDrops(e.retries, DueAt(e, now), DueAt(e, later), horizon);
  }

  /** A pass leaves an event settled, SENDING, or put off by its next backoff. */
  lemma HandledStatus(id: EventId, e: Event, e': Event, push: Push, now: Time)
    requires Handled(id, e, e', push, now)
    ensures || IsTerminal(e'.status)
            || e' == e.(status := Sending)
            || (e'.status == Retryable && e'.retries == e.retries + 1 && e'.nextAttempt.Some?
                && e'.nextAttempt.value >= now + DelaySeconds(e.retries + 1))
  {
  }

  lemma PutOffDrops(e: Event, e': Event, now: Time, later: Time, horizon: Time)
    requires RetriesFit(e, now, horizon) && !IsTerminal(e.status) && DueAt(e, now) == now && now <= horizon
    requires e'.status == Retryable && e'.retries == e.retries + 1 && e'.nextAttempt.Some?
    requires e'.nextAttempt.value >= now + DelaySeconds(e.retries + 1) && now <= later
    ensures Attempts(e', later, horizon) < Attempts(e, now, horizon)
    ensures RetriesFit(e', later, horizon)
  {
    ChainDrops(e'.retries, now + DelaySeconds(e.retries + 1), DueAt(e', later), horizon);
  }

  /** An event a pass takes on at `now` costs at least one attempt once it is answered or given up. */
  lemma HandledDrops(id: EventId, e: Event, e': Event, push: Push, now: Time, later: Time, horizon: Time)
    requires Eligible(e, now) && RetriesFit(e, now, horizon) && now <= later <= horizon
    requires Handled(id, e, e', push, now)
    ensures Attempts(e', later, horizon) <= Attempts(e, now, horizon)
    ensures e'.status != Sending ==> Attempts(e', later, horizon) < Attempts(e, now, horizon)
    ensures RetriesFit(e', later, horizon)
  {
    HandledStatus(id, e, e', push, now);
    if e'.status == Retryable {
      PutOffDrops(e, e', now, later, horizon);
    } else {
      ChainDrops(e.retries, now, later, horizon);
    }
  }

  /** Nothing a fetch or a pass does lets an event be tried more often. */
  ghost predicate Fits(t: Table, now: Time, horizon: Time) {
    forall id <- t.Keys :: RetriesFit(t[id], now, horizon)
  }

  lemma PassDrops(t: Table, rows: seq<EventId>, push: Push, now: Time, u: Table, later: Time, horizon: Time)
    requires PassDone(t, rows, push, now, u) && now <= later <= horizon && Fits(t, now, horizon)
    requires forall id <- rows :: Eligible(t[id], now)
    ensures Fits(u, later, horizon)
    ensures 0 <= Total(u, later, horizon) <= Total(t, now, horizon)
    ensures (exists id <- rows :: u[id].status != Sending) ==> Total(u, later, horizon) < Total(t, now, horizon)
  {
    var f, g := Weight(later, horizon), Weight(now, horizon);
    forall id <- t.Keys
      ensures 0 <= f(id, u[id]) <= g(id, t[id]) && RetriesFit(u[id], later, horizon)
      ensures id in rows && u[id].status != Sending ==> f(id, u[id]) < g(id, t[id])
    {
      if id in rows {
        HandledDrops(id, t[id], u[id], push, now, later, horizon);
      } else {
        WaitingDrops(t[id], now, later, horizon);
      }
    }
    WeighAtMost(u, f, t, g);
    if id :| id in rows && u[id].status != Sending {
      WeighLess(u, f, t, g, id);
    }
  }

  lemma FetchDrops(t: Table, now: Time, later: Time, horizon: Time)
    requires now <= later && Fits(t, now, horizon)
    ensures var u := Reset(t, false); Fits(u, later, horizon) && 0 <= Total(u, later, horizon) <= Total(t, now, horizon)
  {
    var u := Reset(t, false);
    var f, g := Weight(later, horizon), Weight(now, horizon);
    forall id <- t.Keys
      ensures 0 <= f(id, u[id]) <= g(id, t[id]) && RetriesFit(u[id], later, horizon)
    {
      WaitingDrops(t[id], now, later, horizon);
    }
    WeighAtMost(u, f, t, g);
  }

  // ---------------------------------------------------------------- how far the horizon can be

  /** The delays after retry `from`, up to the last one that is not zero. */
  function Sum(delay: int -> nat, from: int): nat
    decreases LAST_DELAYED - from
  {
    if from >= LAST_DELAYED then 0 else delay(from + 1) + Sum(delay, from + 1)
  }

  /** The delays an event still has before it. */
  function DelaysLeft(retries: int): nat {
    Sum(DelaySeconds, retries)
  }

  /** The attempts reach past exactly the horizons nearer than the delays that are left. */
  lemma {:induction false} PassesWithin(retries: int, due: Time, horizon: Time)
    ensures Passes(retries, due, horizon) <==> horizon < due + DelaysLeft(retries)
    decreases LAST_DELAYED - retries
  {
    if retries < LAST_DELAYED {
      PassesWithin(retries + 1, due + DelaySeconds(retries + 1), horizon);
    }
  }

  lemma {:induction false} ConstantSum(delay: int -> nat, from: int, d: nat)
    requires from <= LAST_DELAYED && forall n | from < n <= LAST_DELAYED :: delay(n) == d
    ensures Sum(delay, from) == d * (LAST_DELAYED - from)
    decreases LAST_DELAYED - from
  {
    if from < LAST_DELAYED {
      ConstantSum(delay, from + 1, d);
    }
  }

  ghost predicate Doubles(delay: int -> nat, n: int) {
    delay(n + 1) == 2 * delay(n)
  }

  /** Delays that double from `from + 1` to `last` add up to one less doubling. */
  lemma {:induction false} DoublingSum(delay: int -> nat, from: int, last: int)
    requires from < last <= LAST_DELAYED && forall n | from < n < last :: Doubles(delay, n)
    ensures Sum(delay, from) == 2 * delay(last) - delay(from + 1) + Sum(delay, last)
    decreases last - from
  {
    if from + 1 < last {
      DoublingSum(delay, from + 1, last);
      assert Doubles(delay, from + 1);
    } else {
      assert Sum(delay, from) == delay(last) + Sum(delay, last);
    }
  }

  lemma EarlyDelay(n: int)
    requires 1 <= n <= 10
    ensures DelaySeconds(n) == 5 * Pow2(n - 1)
  {
    BackoffIsCappedDoubling(n);
    Pow2Monotone(n - 1, 9);
    Pow2At60();
  }

  lemma EarlyDelaysDouble(n: int)
    requires 1 <= n < 10
    ensures DelaySeconds(n + 1) == 2 * DelaySeconds(n)
  {
    EarlyDelay(n);
    EarlyDelay(n + 1);
    assert Pow2(n) == 2 * Pow2(n - 1);
  }

  lemma LateDelay(n: int)
    requires 11 <= n <= LAST_DELAYED
    ensures DelaySeconds(n) == MAX_DELAY
  {
    BackoffMonotone(n, n);
  }

  lemma FreshDelays()
    ensures DelaysLeft(0) == 199_515
  {
    forall n | 10 < n <= LAST_DELAYED
      ensures DelaySeconds(n) == MAX_DELAY
    {
      LateDelay(n);
    }
    forall n | 0 < n < 10
      ensures Doubles(DelaySeconds, n)
    {
      EarlyDelaysDouble(n);
    }
    EarlyDelay(1);
    EarlyDelay(10);
    Pow2At60();
    FreshSum(DelaySeconds);
  }

  lemma FreshSum(delay: int -> nat)
    requires forall n | 10 < n <= LAST_DELAYED :: delay(n) == MAX_DELAY
    requires forall n | 0 < n < 10 :: Doubles(delay, n)
    requires delay(1) == 5 && delay(10) == 2560
    ensures Sum(delay, 0) == 199_515
  {
    ConstantSum(delay, 10, MAX_DELAY);
    DoublingSum(delay, 0, 10);
  }

  /** For an event without retries that is any horizon less than 55 hours 25 minutes and 15 seconds away. */
  lemma FreshEventFits(e: Event, now: Time, horizon: Time)
    requires e.status == Pending && e.retries == 0
    ensures RetriesFit(e, now, horizon) <==> horizon < now + 199_515
  {
    PassesWithin(0, now, horizon);
    FreshDelays();
  }

  /** Why there is a limit: an event put off is eligible again at once exactly if it had 64 retries before, so
      a server that keeps refusing it for now can keep the push loop going without the clock moving. */
  lemma LateRetriesNeverRest(e: Event, u: Update)
    requires u.target == Retryable
    ensures Eligible(Transition(e, u), u.at) <==> e.retries >= LAST_DELAYED
  {
    BackoffIsCappedDoubling(e.retries + 1);
  }
}
