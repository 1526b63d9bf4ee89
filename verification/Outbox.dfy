/** The outbox_events table: event statuses, retry backoff, fetching a batch and archiving. */
module Outbox {
  import opened Types

  datatype Status = Pending | Sending | Retryable | Accepted | Synced | Rejected | Review

  /** The unique event_id column, one constructor per id format. */
  datatype EventId =
    | TxnEvent(txn: string)
    | VoidEvent(txn: string)
    | ProductEvent(product: string)
    | ProductFollowUp(product: string, outboxId: string)

  /** A JSON payload; `Unreadable` is text that does not parse. */
  datatype Payload =
    | Movement(txn: string, key: Key, movement: MovementType, delta: int, occurredAt: Time,
               transfer: Option<string>, reference: Option<Text>)
    | ProductSnapshot(product: string, snapshot: string)
    | Unreadable

  datatype Event = Event(payload: Payload, status: Status, retries: int, nextAttempt: Option<Time>,
                         createdAt: Time, error: Option<Text>)

  type Table = map<EventId, Event>

  function NewEvent(payload: Payload, now: Time): Event {
    Event(payload, Pending, 0, None, now, None)
  }

  predicate IsTerminal(s: Status) {
    s in {Accepted, Synced, Rejected, Review}
  }

  // ---------------------------------------------------------------- backoff

  const I64_SPAN := 0x1_0000_0000_0000_0000

  predicate FitsI64(x: int) {
    -(I64_SPAN / 2) <= x < I64_SPAN / 2
  }

  /** Two's-complement wrap-around of an i64, what a release build computes. */
  function WrapI64(x: int): int {
    var r := x % I64_SPAN;
    if r < I64_SPAN / 2 then r else r - I64_SPAN
  }

  function Pow2(n: nat): nat {
    if n == 0 then 1 else 2 * Pow2(n - 1)
  }

  /** The exact product 5 * 2^(n-1), before the cap. */
  function ExactDelay(n: int): nat {
    5 * Pow2(if n < 1 then 0 else n - 1)
  }

  const MAX_DELAY := 3600

  /** The delay before attempt `n`, in i64 arithmetic. A negative product becomes an out-of-range
      duration, for which the code falls back to the cap. */
  function DelaySeconds(n: int): nat {
    var raw := WrapI64(5 * WrapI64(Pow2(if n < 1 then 0 else n - 1)));
    if raw < 0 || raw > MAX_DELAY then MAX_DELAY else raw
  }

  lemma {:induction false} Pow2Add(a: nat, b: nat)
    ensures Pow2(a + b) == Pow2(a) * Pow2(b)
  {
    if a > 0 {
      Pow2Add(a - 1, b);
      assert Pow2(a + b) == 2 * Pow2(a - 1 + b);
    }
  }

  lemma {:induction false} Pow2Monotone(a: nat, b: nat)
    requires a <= b
    ensures Pow2(a) <= Pow2(b)
    decreases b
  {
    if a < b {
      Pow2Monotone(a, b - 1);
    }
  }

  lemma Pow2At60()
    ensures Pow2(9) == 0x200 && Pow2(10) == 0x400 && Pow2(60) == 0x1000_0000_0000_0000
  {
    assert Pow2(5) == 32;
    Pow2Add(5, 5);
    Pow2Add(10, 10);
    Pow2Add(10, 20);
    Pow2Add(30, 30);
  }

  lemma MultipleOfSpan(q: nat)
    ensures (q * I64_SPAN) % I64_SPAN == 0
  {
  }

  /** From exponent 64 on the power wraps to nothing. */
  lemma Pow2Wraps(n: nat)
    requires n >= 64
    ensures WrapI64(Pow2(n)) == 0
  {
    Pow2At60();
    assert Pow2(64) == I64_SPAN;
    Pow2Add(n - 64, 64);
    MultipleOfSpan(Pow2(n - 64));
  }

  /** The product stays inside an i64 exactly up to the 61st retry (a debug build panics beyond). */
  lemma BackoffFitsExactly(n: int)
    ensures FitsI64(ExactDelay(n)) <==> n <= 61
  {
    Pow2At60();
    if 1 <= n <= 61 {
      Pow2Monotone(n - 1, 60);
    } else if n > 61 {
      assert Pow2(61) == 2 * Pow2(60);
      Pow2Monotone(61, n - 1);
    }
  }

  lemma WrapKeeps(x: nat)
    requires x < I64_SPAN / 2
    ensures WrapI64(x) == x
  {
  }

  /** The three retry counts whose product is negative or huge still wait for the cap. */
  lemma BackoffNearOverflow(n: int)
    requires 62 <= n <= 64
    ensures DelaySeconds(n) == MAX_DELAY && ExactDelay(n) >= MAX_DELAY
  {
    Pow2At60();
    assert Pow2(61) == 2 * Pow2(60) && Pow2(62) == 2 * Pow2(61) && Pow2(63) == 2 * Pow2(62);
    if n == 62 {
      assert WrapI64(Pow2(61)) == 0x2000_0000_0000_0000;
      assert WrapI64(5 * 0x2000_0000_0000_0000) < 0;
    } else if n == 63 {
      assert WrapI64(Pow2(62)) == 0x4000_0000_0000_0000;
      assert WrapI64(5 * 0x4000_0000_0000_0000) > MAX_DELAY;
    } else {
      assert WrapI64(Pow2(63)) == -0x8000_0000_0000_0000;
      assert WrapI64(5 * -0x8000_0000_0000_0000) < 0;
    }
  }

  /** A release build gives the documented delay up to the 64th retry, and no delay at all after it. */
  lemma BackoffIsCappedDoubling(n: int)
    ensures n <= 64 ==> DelaySeconds(n) == if ExactDelay(n) < MAX_DELAY then ExactDelay(n) else MAX_DELAY
    ensures n <= 64 ==> 5 <= DelaySeconds(n)
    ensures n > 64 ==> DelaySeconds(n) == 0
  {
    if n <= 61 {
      BackoffFitsExactly(n);
      WrapKeeps(Pow2(if n < 1 then 0 else n - 1));
      WrapKeeps(ExactDelay(n));
      Pow2Monotone(0, if n < 1 then 0 else n - 1);
    } else if n <= 64 {
      BackoffNearOverflow(n);
    } else {
      Pow2Wraps(n - 1);
    }
  }

  /** The delay never shrinks while it is exact, and stays at the cap from the eleventh retry. */
  lemma BackoffMonotone(m: int, n: int)
    requires m <= n <= 64
    ensures DelaySeconds(m) <= DelaySeconds(n)
    ensures 11 <= n ==> DelaySeconds(n) == MAX_DELAY
    ensures 1 <= n < 11 ==> DelaySeconds(n) < MAX_DELAY
  {
    Pow2At60();
    BackoffIsCappedDoubling(m);
    BackoffIsCappedDoubling(n);
    Pow2Monotone(if m < 1 then 0 else m - 1, if n < 1 then 0 else n - 1);
    if 11 <= n {
      Pow2Monotone(10, n - 1);
    } else if 1 <= n {
      Pow2Monotone(n - 1, 9);
    }
  }

  // ---------------------------------------------------------------- status writes

  /** One requested status change; `at` is the clock reading taken while it is applied. */
  datatype Update = Update(id: EventId, target: Status, error: Option<Text>, at: Time)

  function Transition(e: Event, u: Update): Event {
    match u.target
    case Retryable =>
      e.(status := Retryable, retries := e.retries + 1,
         nextAttempt := Some(u.at + DelaySeconds(e.retries + 1)), error := u.error)
    case Accepted | Synced => e.(status := u.target, error := None, nextAttempt := None)
    case Rejected | Review => e.(status := u.target, error := u.error)
    case Pending | Sending => e.(status := u.target)
  }

  /** update_outbox_event_status: `None` when the event does not exist. */
  function SetOne(t: Table, u: Update): Option<Table> {
    if u.id in t then Some(t[u.id := Transition(t[u.id], u)]) else None
  }

  /** The single-event command called once per entry; a call that fails leaves the table alone. */
  function SetEach(t: Table, us: seq<Update>): Table
    decreases |us|
  {
    if us == [] then t
    else
      match SetOne(t, us[0])
      case None => SetEach(t, us[1..])
      case Some(t1) => SetEach(t1, us[1..])
  }

  /** update_outbox_event_statuses inside its transaction: the first missing id ends it. */
  function SetAll(t: Table, us: seq<Update>): Option<Table>
    decreases |us|
  {
    if us == [] then Some(t)
    else
      match SetOne(t, us[0])
      case None => None
      case Some(t1) => SetAll(t1, us[1..])
  }

  /** The batch equals the single calls when every id exists (repeats included), and otherwise fails. */
  lemma {:induction false} BatchRefinesSingles(t: Table, us: seq<Update>)
    ensures (forall u <- us :: u.id in t) ==> SetAll(t, us) == Some(SetEach(t, us))
    ensures (exists u <- us :: u.id !in t) ==> SetAll(t, us) == None
    decreases |us|
  {
    if us != [] && us[0].id in t {
      BatchRefinesSingles(SetOne(t, us[0]).value, us[1..]);
    }
  }

  /** With one entry per event, each named event makes its own transition and no other row changes. */
  lemma {:induction false} SetEachPointwise(t: Table, us: seq<Update>)
    requires forall u <- us :: u.id in t
    requires forall i, j | 0 <= i < j < |us| :: us[i].id != us[j].id
    ensures SetEach(t, us).Keys == t.Keys
    ensures forall i | 0 <= i < |us| :: SetEach(t, us)[us[i].id] == Transition(t[us[i].id], us[i])
    ensures forall id <- t.Keys | (forall u <- us :: u.id != id) :: SetEach(t, us)[id] == t[id]
    decreases |us|
  {
    if us != [] {
      var t1 := SetOne(t, us[0]).value;
      SetEachPointwise(t1, us[1..]);
      forall u <- us[1..] ensures u.id != us[0].id {
        var j :| 1 <= j < |us| && us[j] == u;
      }
      forall i | 0 <= i < |us|
        ensures SetEach(t, us)[us[i].id] == Transition(t[us[i].id], us[i])
      {
        if i > 0 {
          assert us[1..][i - 1] == us[i];
        }
      }
    }
  }

  // ---------------------------------------------------------------- fetching

  const MAX_BATCH := 500

  /** `limit` clamped to 1..500. */
  function BatchLimit(limit: int): (r: nat)
    ensures 1 <= r <= 500
    ensures 1 <= limit <= 500 ==> r == limit
    ensures limit < 1 ==> r == 1
    ensures limit > 500 ==> r == 500
  {
    if limit < 1 then 1 else if limit > MAX_BATCH then MAX_BATCH else limit
  }

  /** The status resets a fetch makes before it selects rows. */
  function Reset(t: Table, force: bool): Table {
    map id | id in t ::
      var e := t[id];
      if e.status == Sending || (force && e.status == Rejected) then e.(status := Pending)
      else if force && e.status == Retryable then e.(nextAttempt := None)
      else e
  }

  predicate Eligible(e: Event, now: Time) {
    || e.status == Pending
    || (e.status == Retryable && (e.nextAttempt == None || e.nextAttempt.value <= now))
  }

  /** A result of the SELECT: oldest eligible rows first, cut at the limit. Rows created in the same
      second come in no particular order. */
  ghost predicate IsBatch(t: Table, now: Time, limit: nat, rows: seq<EventId>) {
    && NoDuplicates(rows)
    && |rows| <= limit
    && (forall id <- rows :: id in t && Eligible(t[id], now))
    && (forall i, j | 0 <= i < j < |rows| :: t[rows[i]].createdAt <= t[rows[j]].createdAt)
    && (forall id <- t.Keys | Eligible(t[id], now) && id !in rows ::
          |rows| == limit && forall r <- rows :: t[r].createdAt <= t[id].createdAt)
  }

  /** SELECT ... ORDER BY created_at LIMIT: takes the oldest remaining candidate until the limit. */
  method SelectBatch(t: Table, now: Time, limit: nat) returns (rows: seq<EventId>)
    ensures IsBatch(t, now, limit, rows)
  {
    rows := [];
    var left := set id | id in t && Eligible(t[id], now);
    while left != {} && |rows| < limit
      invariant |rows| <= limit
      invariant NoDuplicates(rows)
      invariant forall id <- t.Keys | Eligible(t[id], now) :: id in left || id in rows
      invariant forall id <- left :: id in t && Eligible(t[id], now) && id !in rows
      invariant forall id <- rows :: id in t && Eligible(t[id], now)
      invariant forall i, j | 0 <= i < j < |rows| :: t[rows[i]].createdAt <= t[rows[j]].createdAt
      invariant forall r <- rows, id <- left :: t[r].createdAt <= t[id].createdAt
      decreases left
    {
      var oldest := Oldest(t, left);
      rows, left := rows + [oldest], left - {oldest};
    }
  }

  method Oldest(t: Table, ids: set<EventId>) returns (best: EventId)
    requires ids != {} && forall id <- ids :: id in t
    ensures best in ids && forall id <- ids :: t[best].createdAt <= t[id].createdAt
  {
    best :| best in ids;
    var rest := ids - {best};
    while rest != {}
      invariant rest <= ids && best in ids
      invariant forall id <- ids - rest :: t[best].createdAt <= t[id].createdAt
      decreases rest
    {
      var id :| id in rest;
      rest := rest - {id};
      if t[id].createdAt < t[best].createdAt {
        best := id;
      }
    }
  }

  /** A fetch leaves nothing SENDING, and without force it touches no other status. */
  lemma ResetClearsSending(t: Table, force: bool, id: EventId)
    requires id in t
    ensures Reset(t, force).Keys == t.Keys
    ensures Reset(t, force)[id].status != Sending
    ensures Reset(t, force)[id].payload == t[id].payload
    ensures !force && t[id].status != Sending ==> Reset(t, force)[id] == t[id]
    ensures IsTerminal(Reset(t, force)[id].status) <==>
            IsTerminal(t[id].status) && !(force && t[id].status == Rejected)
  {
  }

  // ---------------------------------------------------------------- archiving

  predicate IsArchivable(e: Event, cutoff: Time) {
    e.createdAt < cutoff && IsTerminal(e.status)
  }

  /** The retention window, at least one day. */
  function Cutoff(now: Time, days: int): Time {
    now - SECONDS_PER_DAY * (if days < 1 then 1 else days)
  }

  /** cleanup_expired_outbox_events: what stays. */
  function Keep(t: Table, cutoff: Time): Table {
    map id | id in t && !IsArchivable(t[id], cutoff) :: t[id]
  }

  // ---------------------------------------------------------------- product edits

  /** enqueue_product_upsert: coalesce into the product's base event, or queue a follow-up while that
      event is in flight. `None` when the follow-up id is taken. */
  function EnqueueProduct(t: Table, product: string, snapshot: string, outboxId: string, now: Time): Option<Table> {
    var base := ProductEvent(product);
    var event := NewEvent(ProductSnapshot(product, snapshot), now);
    if base in t && t[base].status == Sending then
      var followUp := ProductFollowUp(product, outboxId);
      if followUp in t then None else Some(t[followUp := event])
    else
      Some(t[base := event])
  }
}
