/** One turn of the push loop: a fetch and, unless it is empty or nothing in it parses, one push. */
module PushTurn {
  import opened Types
  import opened Outbox
  import opened PushOrder
  import opened Delivery
  import opened PushPass

  /** A push that neither failed nor left a movement without a receipt. */
  ghost predicate IsClean(p: Push) {
    p.answer.Answered? && AllAnswered(p.items, p.answer)
  }

  /** The retry counter after one more push. */
  function NextRetry(retryCount: nat, p: Push, max: int): nat {
    match p.answer
    case Answered(_) => Capped(Deferred(p.items, p.answer), max)
    case Threw => if retryCount < max then retryCount + 1 else retryCount
  }

  // ---------------------------------------------------------------- what a turn is

  /** A turn's clock readings (the one of its fetch and its last), its rows, its push if it made one, what the
      loop variables take from the answer, and the table it leaves. */
  datatype Turn = Turn(tick: nat, last: nat, now: Time, rows: seq<EventId>, push: Push, more: seq<Push>, failed: bool,
                       refused: nat, retryCount: nat, givenUp: bool, table: Table)

  /** The request holds movements and products of the batch, as they are queued, in push order. */
  ghost predicate IsRequest(t: Table, rows: seq<EventId>, p: Push, leq: Collation) {
    && |p.items| + |p.products| <= |rows|
    && (forall x <- p.items ::
          x.row in rows && x.row in t && t[x.row].payload.Movement? && x == ItemOf(x.row, t[x.row].payload))
    && (forall id <- p.products :: id in rows && id in t && t[id].payload.ProductSnapshot?)
    && (IsTotalPreorder(leq) ==> IsOrdered(p.items, leq))
  }

  /** What a push, or none, makes of the loop variables. */
  ghost predicate IsReport(retryCount: nat, max: int, turn: Turn) {
    if turn.more == [] then !turn.failed && turn.refused == 0 && turn.retryCount == retryCount && !turn.givenUp
    else
      && (turn.failed <==> !IsClean(turn.push))
      && turn.refused == Refused(turn.push.items, turn.push.answer)
      && turn.retryCount == NextRetry(retryCount, turn.push, max)
      && (turn.givenUp <==> turn.push.answer.Threw? && retryCount >= max)
  }

  /** An event waits to be sent, whether a fetch has already marked it or not. */
  ghost predicate Waiting(t: Table) {
    exists id <- t.Keys :: !t[id].payload.Unreadable? && t[id].status in {Pending, Sending}
  }

  /** A turn from the table `t`: the rows are a batch of it, what parses is pushed and answered so, and the
      table is what the answer makes of it. */
  ghost predicate IsTurn(t: Table, limit: nat, max: int, leq: Collation, answer: Answer, retryCount: nat, turn: Turn) {
    && IsBatch(Reset(t, false), turn.now, limit, turn.rows)
    && PassDone(Reset(t, false), turn.rows, turn.push, turn.now, turn.table)
    && IsReport(retryCount, max, turn)
    && (if turn.more == [] then forall id <- turn.rows :: Reset(t, false)[id].payload.Unreadable?
        else
          && turn.more == [turn.push] && turn.rows != [] && turn.push.answer == answer
          && IsRequest(Reset(t, false), turn.rows, turn.push, leq)
          && (answer.Threw? && !turn.givenUp ==> Waiting(turn.table)))
  }

  // ---------------------------------------------------------------- taking a turn

  lemma SortingKeepsParts(t: Table, rows: seq<EventId>, u: Table, items: seq<Item>, products: seq<EventId>,
                          unreadable: seq<EventId>, leq: Collation)
    requires Prepared(t, rows, u) && Parts(t, rows, items, products, unreadable)
    ensures SortedParts(u, Sort(items, leq), products)
    ensures forall x :: x in Sort(items, leq) <==> x in items
    ensures |Sort(items, leq)| == |items|
    ensures IsTotalPreorder(leq) ==> IsOrdered(Sort(items, leq), leq)
  {
    SortMembers(items, leq, Item(ProductEvent(""), "", Key("", "", Available), None, 0, 0));
    forall x
      ensures x in Sort(items, leq) <==> x in items
    {
      SortMembers(items, leq, x);
    }
    SortKeepsRows(items, leq);
    if IsTotalPreorder(leq) {
      SortIsOrderedPermutation(items, leq);
    }
  }

  lemma PartsAreRequest(t: Table, rows: seq<EventId>, items: seq<Item>, products: seq<EventId>,
                        unreadable: seq<EventId>, p: Push, leq: Collation)
    requires Parts(t, rows, items, products, unreadable)
    requires |p.items| == |items| && (forall x :: x in p.items <==> x in items) && p.products == products
    requires IsTotalPreorder(leq) ==> IsOrdered(p.items, leq)
    ensures IsRequest(t, rows, p, leq)
  {
  }

  /** Applies the receipts of an answered push. */
  method Settle(u: Table, sorted: seq<Item>, products: seq<EventId>, receipts: map<string, Receipt>, maxRetries: int,
                clock: nat -> Time, tick: nat, ghost now: Time)
    returns (w: Table, retryCount: nat, missing: bool, refused: nat, next: nat)
    requires SortedParts(u, sorted, products)
    requires TicksFrom(clock, now, tick)
    ensures next >= tick
    ensures Answers(u, sorted, products, receipts, now, w)
    ensures retryCount == Capped(Deferred(sorted, Answered(receipts)), maxRetries)
    ensures missing <==> !AllAnswered(sorted, Answered(receipts))
    ensures refused == Refused(sorted, Answered(receipts))
  {
    var us;
    us, retryCount, missing, refused := ReadReceipts(sorted, receipts, maxRetries, clock, tick);
    next := tick + |us|;
    SettlementAnswers(u, sorted, products, receipts, us, clock, tick, next, now);
    w := Written(u, Settlement(us, products, clock, next));
    next := next + |products|;
  }

  lemma PreparedWaits(t: Table, rows: seq<EventId>, u: Table, items: seq<Item>, products: seq<EventId>,
                      unreadable: seq<EventId>)
    requires Prepared(t, rows, u) && Parts(t, rows, items, products, unreadable) && (items != [] || products != [])
    ensures Waiting(u)
  {
    var id := if items != [] then items[0].row else products[0];
    assert (items != [] ==> items[0] in items) && (products != [] ==> products[0] in products);
    assert id in u.Keys && !u[id].payload.Unreadable? && u[id].status == Sending;
  }

  /** A fetch returns a waiting event or leaves it waiting behind a full batch, and rejecting what does not
      parse touches none that waits. */
  lemma StillWaiting(t: Table, now: Time, limit: nat, rows: seq<EventId>, push: Push, u: Table)
    requires Waiting(t) && limit >= 1 && IsBatch(Reset(t, false), now, limit, rows)
    requires PassDone(Reset(t, false), rows, push, now, u)
    requires forall id <- rows :: Reset(t, false)[id].payload.Unreadable?
    ensures rows != [] && Waiting(u)
  {
    var id :| id in t.Keys && !t[id].payload.Unreadable? && t[id].status in {Pending, Sending};
    assert Eligible(Reset(t, false)[id], now) && id !in rows;
    assert id in u.Keys && u[id] == Reset(t, false)[id];
  }

  /** One push of a prepared batch and what follows from its answer. */
  method PushBatch(ghost t: Table, rows: seq<EventId>, u: Table, items: seq<Item>, products: seq<EventId>,
                   ghost unreadable: seq<EventId>, push: Push, retryCount: nat, maxRetries: int,
                   clock: nat -> Time, tick: nat, ghost now: Time, leq: Collation)
    returns (w: Table, retryCount': nat, failed: bool, refused: nat, givenUp: bool, next: nat)
    requires Prepared(t, rows, u) && Parts(t, rows, items, products, unreadable)
    requires push.items == Sort(items, leq) && push.products == products
    requires TicksFrom(clock, now, tick) && (items != [] || products != [])
    ensures next >= tick && PassDone(t, rows, push, now, w)
    ensures push.answer.Threw? && !givenUp ==> Waiting(w)
    ensures IsRequest(t, rows, push, leq)
    ensures failed <==> !IsClean(push)
    ensures refused == Refused(push.items, push.answer)
    ensures retryCount' == NextRetry(retryCount, push, maxRetries)
    ensures givenUp <==> push.answer.Threw? && retryCount >= maxRetries
  {
    SortingKeepsParts(t, rows, u, items, products, unreadable, leq);
    PartsAreRequest(t, rows, items, products, unreadable, push, leq);
    match push.answer {
      case Answered(receipts) =>
        w, retryCount', failed, refused, next :=
          Settle(u, push.items, products, receipts, maxRetries, clock, tick, now);
        AnsweredPass(t, rows, u, items, push.items, products, unreadable, receipts, now, w);
        givenUp := false;
      case Threw =>
        failed, refused, next := true, 0, tick;
        NoRefusals(push.items);
        if retryCount < maxRetries {
          w, retryCount', givenUp := u, retryCount + 1, false;
          ThrownPass(t, rows, u, items, push.items, products, unreadable, now);
          PreparedWaits(t, rows, u, items, products, unreadable);
        } else {
          w := Written(u, Marks(RowsOf(items), Retryable, Some(PushFailed), clock, tick));
          GivenUpPass(t, rows, u, items, push.items, products, unreadable, clock, tick, now);
          retryCount', next, givenUp := retryCount, tick + |items|, true;
        }
    }
  }

  /** A failed request refuses nothing. */
  lemma {:induction false} NoRefusals(items: seq<Item>)
    ensures Refused(items, Threw) == 0
  {
    NoneRefused(items, Threw);
  }

  const NOTHING := Push([], [], Threw)

  ghost predicate IsClock(clock: nat -> Time) {
    forall m: nat, n: nat | m <= n :: clock(m) <= clock(n)
  }

  /** Fetches a batch, marks it SENDING and pushes what parses. */
  method TakeTurn(t: Table, batchSize: int, retryCount: nat, maxRetries: int, leq: Collation, answer: Answer,
                  clock: nat -> Time, tick: nat)
    returns (turn: Turn)
    requires IsClock(clock)
    ensures turn.tick == tick + 1 <= turn.last && turn.now == clock(tick + 1)
    ensures IsTurn(t, BatchLimit(batchSize), maxRetries, leq, answer, retryCount, turn)
  {
    var fetched := Reset(t, false);
    var rows := SelectBatch(fetched, clock(tick + 1), BatchLimit(batchSize));
    ghost var now := clock(tick + 1);
    turn := Turn(tick + 1, tick + 1, clock(tick + 1), rows, NOTHING, [], false, 0, retryCount, false, fetched);
    if rows == [] {
      return;
    }
    var u, items, products, unreadable, next := Prepare(fetched, rows, clock, tick + 2, now);
    if items == [] && products == [] {
      UnreadablePass(fetched, rows, u, NOTHING, now);
      return turn.(last := next, table := u);
    }
    var push := Push(Sort(items, leq), products, answer);
    var w, retryCount', failed, refused, givenUp, last :=
      PushBatch(fetched, rows, u, items, products, unreadable, push, retryCount, maxRetries, clock, next, now, leq);
    turn := Turn(tick + 1, last, clock(tick + 1), rows, push, [push], failed, refused, retryCount', givenUp, w);
  }

  // ---------------------------------------------------------------- why the loop ends

  /** A pass whose push was answered, or that had nothing to push, uses attempts up. */
  lemma PassSettles(t: Table, rows: seq<EventId>, push: Push, now: Time, u: Table, later: Time, horizon: Time)
    requires PassDone(t, rows, push, now, u) && now <= later <= horizon && Fits(t, now, horizon)
    requires rows != [] && forall id <- rows :: Eligible(t[id], now)
    ensures Fits(u, later, horizon)
    ensures 0 <= Total(u, later, horizon) <= Total(t, now, horizon)
    ensures push.answer.Answered? || t[rows[0]].payload.Unreadable? ==>
              Total(u, later, horizon) < Total(t, now, horizon)
  {
    PassDrops(t, rows, push, now, u, later, horizon);
    var id := rows[0];
    assert Handled(id, t[id], u[id], push, now);
  }

  /** What is left of the retry budget. */
  function Budget(retryCount: nat, max: int): nat {
    if retryCount < max then max - retryCount else 0
  }

  /** After this turn the loop ends. */
  predicate Stops(batchSize: int, turn: Turn) {
    turn.rows == [] || turn.givenUp || (turn.more != [] && turn.push.answer.Answered? && |turn.rows| < batchSize)
  }

  /** What bounds a run: a horizon the clock stays below, or a number of abort checks after which the caller
      has aborted. Any run that ends is of the second kind, however long it takes. */
  datatype Limit = Horizon(time: Time) | Checks(count: nat)

  ghost predicate IsLimit(limit: Limit, start: Table, clock: nat -> Time, aborted: nat -> bool) {
    match limit
    case Horizon(h) => (forall n: nat :: clock(n) <= h) && Fits(start, clock(0), h)
    case Checks(count) => forall n: nat | n >= count :: aborted(n)
  }

  ghost predicate StillFits(limit: Limit, t: Table, now: Time) {
    limit.Horizon? ==> Fits(t, now, limit.time)
  }

  /** The attempts left before the horizon, or the checks left. */
  ghost function Work(limit: Limit, t: Table, now: Time, checks: nat): int {
    match limit
    case Horizon(h) => Total(t, now, h)
    case Checks(count) => count - checks
  }

  lemma TurnUsesAttempts(t: Table, limit: nat, max: int, leq: Collation, answer: Answer, retryCount: nat, turn: Turn,
                         before: Time, later: Time, horizon: Time)
    requires IsTurn(t, limit, max, leq, answer, retryCount, turn)
    requires before <= turn.now <= later <= horizon && Fits(t, before, horizon)
    ensures Fits(turn.table, later, horizon)
    ensures 0 <= Total(turn.table, later, horizon) <= Total(t, before, horizon)
    ensures turn.rows != [] && (turn.more == [] || turn.push.answer.Answered?) ==>
              Total(turn.table, later, horizon) < Total(t, before, horizon)
  {
    FetchDrops(t, before, turn.now, horizon);
    if turn.rows != [] {
      PassSettles(Reset(t, false), turn.rows, turn.push, turn.now, turn.table, later, horizon);
    } else {
      PassDrops(Reset(t, false), turn.rows, turn.push, turn.now, turn.table, later, horizon);
    }
  }

  /** A turn after which the loop goes on leaves less work, or the same work and less of the retry budget. */
  lemma TurnUsesWork(limit: Limit, start: Table, clock: nat -> Time, aborted: nat -> bool, t: Table, batchSize: int,
                     max: int, leq: Collation, answer: Answer, retryCount: nat, tick: nat, turn: Turn, checks: nat)
    requires IsLimit(limit, start, clock, aborted) && IsClock(clock) && !aborted(checks)
    requires tick < turn.tick <= turn.last && turn.now == clock(turn.tick)
    requires StillFits(limit, t, clock(tick)) && IsTurn(t, BatchLimit(batchSize), max, leq, answer, retryCount, turn)
    ensures StillFits(limit, turn.table, clock(turn.last))
    ensures Work(limit, t, clock(tick), checks) >= 0
    ensures !Stops(batchSize, turn) ==>
              || Work(limit, turn.table, clock(turn.last), checks + 1) < Work(limit, t, clock(tick), checks)
              || (&& Work(limit, turn.table, clock(turn.last), checks + 1) == Work(limit, t, clock(tick), checks)
                  && Budget(turn.retryCount, max) < Budget(retryCount, max))
  {
    if limit.Horizon? {
      TurnUsesAttempts(t, BatchLimit(batchSize), max, leq, answer, retryCount, turn, clock(tick), clock(turn.last),
                       limit.time);
    }
  }
}
