/** One pass of the push loop: taking a batch apart, pushing it and applying its receipts. */
module PushPass {
  import opened Types
  import opened Outbox
  import opened PushOrder
  import opened Delivery

  // ---------------------------------------------------------------- taking a batch apart

  ghost predicate Parts(t: Table, rows: seq<EventId>, items: seq<Item>, products: seq<EventId>,
                        unreadable: seq<EventId>) {
    && |items| + |products| + |unreadable| == |rows|
    && RowsDiffer(items) && NoDuplicates(products) && NoDuplicates(unreadable)
    && (forall x <- items ::
          x.row in rows && x.row in t && t[x.row].payload.Movement? && x == ItemOf(x.row, t[x.row].payload))
    && (forall id <- products :: id in rows && id in t && t[id].payload.ProductSnapshot?)
    && (forall id <- unreadable :: id in rows && id in t && t[id].payload.Unreadable?)
    && (forall id <- rows :: id in t && match t[id].payload
          case Movement(_, _, _, _, _, _, _) => ItemOf(id, t[id].payload) in items
          case ProductSnapshot(_, _) => id in products
          case Unreadable => id in unreadable)
  }

  /** The item repeats the payload of its row, column by column. */
  predicate StatesRow(x: Item, t: Table) {
    && x.row in t && t[x.row].payload.Movement?
    && x.txn == t[x.row].payload.txn && x.key == t[x.row].payload.key && x.delta == t[x.row].payload.delta
    && x.movement == Some(t[x.row].payload.movement) && x.occurredAt == t[x.row].payload.occurredAt
  }

  method Split(t: Table, rows: seq<EventId>)
    returns (items: seq<Item>, products: seq<EventId>, unreadable: seq<EventId>)
    requires NoDuplicates(rows) && forall id <- rows :: id in t
    ensures Parts(t, rows, items, products, unreadable)
    ensures forall x <- items :: StatesRow(x, t)
  {
    items, products, unreadable := [], [], [];
    var i := 0;
    while i < |rows|
      invariant 0 <= i <= |rows|
      invariant Parts(t, rows[..i], items, products, unreadable)
    {
      var id := rows[i];
      assert rows[..i + 1] == rows[..i] + [id];
      assert id !in rows[..i];
      match t[id].payload {
        case Movement(_, _, _, _, _, _, _) => items := items + [ItemOf(id, t[id].payload)];
        case ProductSnapshot(_, _) => products := products + [id];
        case Unreadable => unreadable := unreadable + [id];
      }
      i := i + 1;
    }
    assert rows[..i] == rows;
  }

  /** After the SENDING mark and the rejection of what does not parse. */
  ghost predicate Prepared(t: Table, rows: seq<EventId>, u: Table) {
    && u.Keys == t.Keys
    && forall id <- t.Keys :: u[id] ==
         if id !in rows then t[id]
         else if t[id].payload.Unreadable? then t[id].(status := Rejected, error := Some(NotParsed))
         else t[id].(status := Sending)
  }

  lemma RejectedAfterSending(e: Event, sending: Event, e': Event, now: Time)
    requires Took(e, sending, Sending, None, now) && Took(sending, e', Rejected, Some(NotParsed), now)
    ensures e' == e.(status := Rejected, error := Some(NotParsed))
  {
  }

  /** Marks a batch SENDING, takes it apart and rejects what does not parse. */
  method Prepare(t: Table, rows: seq<EventId>, clock: nat -> Time, tick: nat, ghost now: Time)
    returns (u: Table, items: seq<Item>, products: seq<EventId>, unreadable: seq<EventId>, next: nat)
    requires NoDuplicates(rows) && forall id <- rows :: id in t
    requires TicksFrom(clock, now, tick)
    ensures Prepared(t, rows, u) && next >= tick
    ensures Parts(t, rows, items, products, unreadable)
  {
    MarksTake(t, rows, Sending, None, clock, tick, now);
    u := Written(t, Marks(rows, Sending, None, clock, tick));
    next := tick + |rows|;
    items, products, unreadable := Split(t, rows);
    if unreadable != [] {
      ghost var sending := u;
      MarksTake(u, unreadable, Rejected, Some(NotParsed), clock, next, now);
      u := Written(u, Marks(unreadable, Rejected, Some(NotParsed), clock, next));
      next := next + |unreadable|;
      forall id <- unreadable
        ensures u[id] == t[id].(status := Rejected, error := Some(NotParsed))
      {
        RejectedAfterSending(t[id], sending[id], u[id], now);
      }
    }
  }

  // ---------------------------------------------------------------- reading receipts

  ghost predicate AreUpdates(us: seq<Update>, items: seq<Item>, receipts: map<string, Receipt>, clock: nat -> Time,
                             tick: nat) {
    && |us| == |items|
    && forall i: nat | i < |items| ::
         var (status, error) := Verdict(items[i], receipts);
         us[i] == Update(items[i].row, status, error, clock(tick + i))
  }

  function Capped(n: nat, max: int): nat {
    if n <= max then n else if max < 0 then 0 else max
  }

  ghost predicate AllAnswered(items: seq<Item>, a: Answer) {
    forall x <- items :: HasReceipt(x, a)
  }

  lemma NextItem(items: seq<Item>, i: nat, a: Answer)
    requires i < |items|
    ensures Deferred(items[..i + 1], a) == Deferred(items[..i], a) + if IsDeferred(items[i], a) then 1 else 0
    ensures Refused(items[..i + 1], a) == Refused(items[..i], a) + if IsRefused(items[i], a) then 1 else 0
    ensures AllAnswered(items[..i + 1], a) <==> AllAnswered(items[..i], a) && HasReceipt(items[i], a)
  {
    var next := items[..i + 1];
    assert next == items[..i] + [items[i]] && next[..|next| - 1] == items[..i];
  }

  lemma UpdatesAreEarned(us: seq<Update>, items: seq<Item>, receipts: map<string, Receipt>, clock: nat -> Time,
                         tick: nat)
    requires AreUpdates(us, items, receipts, clock, tick)
    ensures forall i: nat | i < |items| :: Earned(us[i].target, us[i].error, items[i].txn, receipts)
  {
    forall i: nat | i < |items|
      ensures Earned(us[i].target, us[i].error, items[i].txn, receipts)
    {
      VerdictIsEarned(items[i], receipts);
    }
  }

  /** One status change per pushed movement, from its receipt; counts refusals and caps the retry count. */
  method ReadReceipts(items: seq<Item>, receipts: map<string, Receipt>, maxRetries: int, clock: nat -> Time, tick: nat)
    returns (us: seq<Update>, retryCount: nat, missing: bool, refused: nat)
    ensures AreUpdates(us, items, receipts, clock, tick)
    ensures forall i: nat | i < |items| :: Earned(us[i].target, us[i].error, items[i].txn, receipts)
    ensures retryCount == Capped(Deferred(items, Answered(receipts)), maxRetries)
    ensures retryCount <= Passing(items, receipts) && (maxRetries >= 0 ==> retryCount <= maxRetries)
    ensures retryCount == Passing(items, receipts) || retryCount >= maxRetries
    ensures missing <==> exists x <- items :: x.txn !in receipts
    ensures missing <==> !AllAnswered(items, Answered(receipts))
    ensures refused > 0 <==> exists x <- items :: x.txn in receipts && !receipts[x.txn].accepted
    ensures refused == Refused(items, Answered(receipts))
  {
    us, retryCount, missing, refused := [], 0, false, 0;
    ghost var a := Answered(receipts);
    var i := 0;
    while i < |items|
      invariant 0 <= i <= |items|
      invariant AreUpdates(us, items[..i], receipts, clock, tick)
      invariant retryCount == Capped(Deferred(items[..i], a), maxRetries)
      invariant missing <==> !AllAnswered(items[..i], a)
      invariant refused == Refused(items[..i], a)
    {
      var item := items[i];
      NextItem(items, i, a);
      var (status, error) := Verdict(item, receipts);
      us := us + [Update(item.row, status, error, clock(tick + i))];
      if item.txn !in receipts {
        missing := true;
      } else if !receipts[item.txn].accepted {
        if status == Retryable && retryCount < maxRetries {
          retryCount := retryCount + 1;
        }
        refused := refused + 1;
      }
      i := i + 1;
    }
    assert items[..i] == items;
    DeferredArePassing(items, receipts);
    RefusedMeans(items, Answered(receipts));
    UpdatesAreEarned(us, items, receipts, clock, tick);
  }

  // ---------------------------------------------------------------- passes

  /** Every status write replaces the SENDING mark. */
  lemma TakesOverSending(e: Event, e': Event, target: Status, error: Option<Text>, now: Time)
    requires Took(e.(status := Sending), e', target, error, now)
    ensures Took(e, e', target, error, now)
  {
  }

  lemma UnreadablePass(t: Table, rows: seq<EventId>, u: Table, push: Push, now: Time)
    requires Prepared(t, rows, u) && forall id <- rows :: id in t && t[id].payload.Unreadable?
    ensures PassDone(t, rows, push, now, u)
  {
  }

  lemma ThrownPass(t: Table, rows: seq<EventId>, u: Table, items: seq<Item>, sorted: seq<Item>, products: seq<EventId>,
                   unreadable: seq<EventId>, now: Time)
    requires Prepared(t, rows, u) && Parts(t, rows, items, products, unreadable)
    requires forall x <- items :: x in sorted
    ensures PassDone(t, rows, Push(sorted, products, Threw), now, u)
  {
  }

  function RowsOf(items: seq<Item>): seq<EventId> {
    seq(|items|, i requires 0 <= i < |items| => items[i].row)
  }

  lemma RowsOfMembers(items: seq<Item>, id: EventId)
    ensures id in RowsOf(items) <==> exists x <- items :: x.row == id
  {
    if id in RowsOf(items) {
      var i :| 0 <= i < |items| && RowsOf(items)[i] == id;
      assert items[i] in items;
    }
    if x :| x in items && x.row == id {
      var i :| 0 <= i < |items| && items[i] == x;
      assert RowsOf(items)[i] == id;
    }
  }

  /** A push that failed for the last time: the movements are put off, the products stay SENDING. */
  lemma GivenUpPass(t: Table, rows: seq<EventId>, u: Table, items: seq<Item>, sorted: seq<Item>, products: seq<EventId>,
                    unreadable: seq<EventId>, clock: nat -> Time, tick: nat, now: Time)
    requires Prepared(t, rows, u) && Parts(t, rows, items, products, unreadable)
    requires forall x <- items :: x in sorted
    requires TicksFrom(clock, now, tick)
    ensures var w := Written(u, Marks(RowsOf(items), Retryable, Some(PushFailed), clock, tick));
      PassDone(t, rows, Push(sorted, products, Threw), now, w)
  {
    var ids := RowsOf(items);
    forall id <- ids
      ensures id in u && id in rows && t[id].payload.Movement?
    {
      RowsOfMembers(items, id);
    }
    MarksTake(u, ids, Retryable, Some(PushFailed), clock, tick, now);
    var w := Written(u, Marks(ids, Retryable, Some(PushFailed), clock, tick));
    ThrownPass(t, rows, u, items, sorted, products, unreadable, now);
    forall id <- ids
      ensures Took(t[id], w[id], Retryable, Some(PushFailed), now)
    {
      TakesOverSending(t[id], w[id], Retryable, Some(PushFailed), now);
    }
  }

  /** The list of status changes after an answered push. */
  function Settlement(us: seq<Update>, products: seq<EventId>, clock: nat -> Time, tick: nat): seq<Update> {
    us + Marks(products, Synced, None, clock, tick)
  }

  ghost predicate SortedParts(t: Table, sorted: seq<Item>, products: seq<EventId>) {
    && RowsDiffer(sorted) && NoDuplicates(products)
    && (forall x <- sorted :: x.row in t && t[x.row].payload.Movement? && x == ItemOf(x.row, t[x.row].payload))
    && (forall id <- products :: id in t && t[id].payload.ProductSnapshot?)
  }

  lemma SettlementIds(t: Table, sorted: seq<Item>, products: seq<EventId>, receipts: map<string, Receipt>,
                      us: seq<Update>, clock: nat -> Time, tick: nat, next: nat, now: Time)
    requires SortedParts(t, sorted, products) && AreUpdates(us, sorted, receipts, clock, tick)
    requires TicksFrom(clock, now, tick) && tick <= next
    ensures var all := Settlement(us, products, clock, next);
      && (forall i | 0 <= i < |all| :: all[i].id in t && all[i].at >= now)
      && (forall i, j | 0 <= i < j < |all| :: all[i].id != all[j].id)
  {
    var all := Settlement(us, products, clock, next);
    forall i | 0 <= i < |all|
      ensures all[i].id in t && all[i].at >= now
      ensures i < |sorted| ==> all[i].id == sorted[i].row && t[all[i].id].payload.Movement?
      ensures i >= |sorted| ==> all[i].id == products[i - |sorted|] && t[all[i].id].payload.ProductSnapshot?
    {
      if i < |sorted| {
        assert all[i] == us[i] && sorted[i] in sorted;
      } else {
        assert all[i] == Update(products[i - |sorted|], Synced, None, clock(next + (i - |sorted|)));
      }
    }
  }

  ghost predicate Answers(t: Table, sorted: seq<Item>, products: seq<EventId>, receipts: map<string, Receipt>,
                          now: Time, w: Table) {
    && w.Keys == t.Keys
    && (forall x <- sorted ::
          x.row in t && Took(t[x.row], w[x.row], Verdict(x, receipts).0, Verdict(x, receipts).1, now))
    && (forall id <- products :: id in t && Took(t[id], w[id], Synced, None, now))
    && (forall id <- t.Keys | id !in products && (forall x <- sorted :: x.row != id) :: w[id] == t[id])
  }

  /** Each change of a settlement is a verdict or the mark of a product. */
  lemma SettlementAt(sorted: seq<Item>, products: seq<EventId>, receipts: map<string, Receipt>, us: seq<Update>,
                     clock: nat -> Time, tick: nat, next: nat, i: nat)
    requires AreUpdates(us, sorted, receipts, clock, tick) && i < |us| + |products|
    ensures var u := Settlement(us, products, clock, next)[i];
      if i < |us| then
        u.id == sorted[i].row && u.target == Verdict(sorted[i], receipts).0 && u.error == Verdict(sorted[i], receipts).1
      else
        u.id == products[i - |us|] && u.target == Synced && u.error == None
  {
    if i < |us| {
      assert Settlement(us, products, clock, next)[i] == us[i];
    } else {
      var j := i - |us|;
      assert Settlement(us, products, clock, next)[i] == Update(products[j], Synced, None, clock(next + j));
    }
  }

  lemma SettlementSkips(t: Table, sorted: seq<Item>, products: seq<EventId>, receipts: map<string, Receipt>,
                        us: seq<Update>, clock: nat -> Time, tick: nat, next: nat, id: EventId)
    requires AreUpdates(us, sorted, receipts, clock, tick)
    requires id !in products && forall x <- sorted :: x.row != id
    ensures forall u <- Settlement(us, products, clock, next) :: u.id != id
  {
    var all := Settlement(us, products, clock, next);
    forall i | 0 <= i < |all|
      ensures all[i].id != id
    {
      SettlementAt(sorted, products, receipts, us, clock, tick, next, i);
    }
  }

  lemma SettlementAnswers(t: Table, sorted: seq<Item>, products: seq<EventId>, receipts: map<string, Receipt>,
                          us: seq<Update>, clock: nat -> Time, tick: nat, next: nat, now: Time)
    requires SortedParts(t, sorted, products) && AreUpdates(us, sorted, receipts, clock, tick)
    requires TicksFrom(clock, now, tick) && tick <= next
    ensures Answers(t, sorted, products, receipts, now, Written(t, Settlement(us, products, clock, next)))
  {
    var all := Settlement(us, products, clock, next);
    SettlementIds(t, sorted, products, receipts, us, clock, tick, next, now);
    WrittenTakes(t, all, now);
    var w := Written(t, all);
    forall i: nat | i < |sorted|
      ensures Took(t[sorted[i].row], w[sorted[i].row], Verdict(sorted[i], receipts).0,
                   Verdict(sorted[i], receipts).1, now)
    {
      SettlementAt(sorted, products, receipts, us, clock, tick, next, i);
    }
    forall i: nat | i < |products|
      ensures Took(t[products[i]], w[products[i]], Synced, None, now)
    {
      SettlementAt(sorted, products, receipts, us, clock, tick, next, |us| + i);
      assert all[|us| + i].id == products[i];
    }
    forall id <- t.Keys | id !in products && (forall x <- sorted :: x.row != id)
      ensures w[id] == t[id]
    {
      SettlementSkips(t, sorted, products, receipts, us, clock, tick, next, id);
    }
  }

  /** An answered push: every pushed event takes the status its receipt gives it. */
  lemma AnsweredPass(t: Table, rows: seq<EventId>, u: Table, items: seq<Item>, sorted: seq<Item>,
                     products: seq<EventId>, unreadable: seq<EventId>, receipts: map<string, Receipt>, now: Time,
                     w: Table)
    requires Prepared(t, rows, u) && Parts(t, rows, items, products, unreadable)
    requires forall x :: x in sorted <==> x in items
    requires Answers(u, sorted, products, receipts, now, w)
    ensures PassDone(t, rows, Push(sorted, products, Answered(receipts)), now, w)
  {
    var push := Push(sorted, products, Answered(receipts));
    forall id <- t.Keys
      ensures if id in rows then Handled(id, t[id], w[id], push, now) else w[id] == t[id]
    {
      if id in rows {
        if t[id].payload.Movement? {
          var item := ItemOf(id, t[id].payload);
          assert item in sorted && item.row == id;
          TakesOverSending(t[id], w[id], Verdict(item, receipts).0, Verdict(item, receipts).1, now);
        } else if t[id].payload.ProductSnapshot? {
          TakesOverSending(t[id], w[id], Synced, None, now);
        }
      }
    }
  }
}
