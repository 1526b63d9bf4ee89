/** What a sync run knows of its events and its pushes after each turn. */
module SyncAccounts {
  import opened Types
  import opened Sums
  import opened Outbox
  import opened PushOrder
  import opened Delivery
  import opened PushTurn

  // ---------------------------------------------------------------- events

  /** What became of an event the run fetched; `push` is the last request that carried it. */
  datatype Fate = Unparsed | Carried(push: nat)

  /** The status an event shows once its fate is known. */
  predicate Shows(id: EventId, e: Event, f: Fate, log: seq<Push>) {
    match f
    case Unparsed => e.payload.Unreadable? && e.status == Rejected && e.error == Some(NotParsed)
    case Carried(n) =>
      && n < |log|
      && match e.payload
         case Unreadable => false
         case ProductSnapshot(_, _) =>
           id in log[n].products && if log[n].answer.Threw? then e.status in {Sending, Pending} else e.status == Synced
         case Movement(_, _, _, _, _, _, _) =>
           var item := ItemOf(id, e.payload);
           && item in log[n].items
           && if log[n].answer.Threw? then e.status in {Sending, Pending, Retryable}
              else (e.status, e.error) == Verdict(item, log[n].answer.receipts)
  }

  /** The outbox a run has made of `start`: fetched events were open and show their fate, the others are as a
      fetch leaves them. */
  ghost predicate Accounted(start: Table, t: Table, log: seq<Push>, fates: map<EventId, Fate>) {
    && t.Keys == start.Keys && fates.Keys <= t.Keys
    && forall id <- t.Keys ::
         if id in fates then
           !IsTerminal(start[id].status) && t[id].payload == start[id].payload && Shows(id, t[id], fates[id], log)
         else t[id] == Reset(start, false)[id]
  }

  /** The events a request carries. */
  ghost function Load(p: Push): set<EventId> {
    (set x <- p.items :: x.row) + (set id | id in p.products)
  }

  /** Each request of the log is in push order and holds events the run fetched, as they are queued; and no
      request after the one an event's fate names carries it again. */
  ghost predicate Tied(start: Table, log: seq<Push>, fates: map<EventId, Fate>, leq: Collation) {
    (forall p <- log :: HoldsFetched(start, p, fates, leq)) && NamesLast(log, fates)
  }

  ghost predicate NamesLast(log: seq<Push>, fates: map<EventId, Fate>) {
    forall id <- fates.Keys, m: nat | fates[id].Carried? && fates[id].push < m < |log| :: id !in Load(log[m])
  }

  ghost predicate HoldsFetched(start: Table, p: Push, fates: map<EventId, Fate>, leq: Collation) {
    && (forall x <- p.items ::
          && x.row in fates && x.row in start && start[x.row].payload.Movement?
          && x == ItemOf(x.row, start[x.row].payload))
    && (forall id <- p.products :: id in fates && id in start && start[id].payload.ProductSnapshot?)
    && (IsTotalPreorder(leq) ==> IsOrdered(p.items, leq))
  }

  /** A fetch changes no fate: SENDING and PENDING show the same. */
  lemma ResetShows(id: EventId, t: Table, f: Fate, log: seq<Push>)
    requires id in t && Shows(id, t[id], f, log)
    ensures Shows(id, Reset(t, false)[id], f, log)
  {
  }

  lemma FetchAccounts(start: Table, t: Table, log: seq<Push>, fates: map<EventId, Fate>)
    requires Accounted(start, t, log, fates) || (t == start && fates == map[])
    ensures Accounted(start, Reset(t, false), log, fates)
  {
    if fates != map[] {
      forall id <- fates.Keys
        ensures Shows(id, Reset(t, false)[id], fates[id], log)
      {
        ResetShows(id, t, fates[id], log);
      }
    }
  }

  ghost function WithFates(fates: map<EventId, Fate>, t: Table, rows: seq<EventId>, n: nat): map<EventId, Fate> {
    fates + map id | id in rows && id in t :: if t[id].payload.Unreadable? then Unparsed else Carried(n)
  }

  lemma HandledShows(id: EventId, e: Event, e': Event, push: Push, now: Time, log: seq<Push>, n: nat)
    requires Handled(id, e, e', push, now)
    requires e.payload.Unreadable? || (n < |log| && log[n] == push)
    ensures Shows(id, e', if e.payload.Unreadable? then Unparsed else Carried(n), log) && e'.payload == e.payload
  {
  }

  lemma PassAccounts(start: Table, t: Table, rows: seq<EventId>, push: Push, now: Time, u: Table,
                     log: seq<Push>, more: seq<Push>, fates: map<EventId, Fate>)
    requires Accounted(start, t, log, fates) && PassDone(t, rows, push, now, u)
    requires forall id <- rows :: Eligible(t[id], now)
    requires more == [push] || (more == [] && forall id <- rows :: t[id].payload.Unreadable?)
    ensures Accounted(start, u, log + more, WithFates(fates, t, rows, |log|))
  {
    var fates' := WithFates(fates, t, rows, |log|);
    forall id <- u.Keys
      ensures if id in fates' then
                && !IsTerminal(start[id].status) && u[id].payload == start[id].payload
                && Shows(id, u[id], fates'[id], log + more)
              else u[id] == Reset(start, false)[id]
    {
      if id in rows {
        HandledShows(id, t[id], u[id], push, now, log + more, |log|);
      }
    }
  }

  /** The events a run could ever fetch. */
  ghost function OpenEvents(t: Table): set<EventId> {
    set id | id in t && !IsTerminal(t[id].status)
  }

  /** A fetch leaves an eligible event out only where the limit is reached and there are more open events. */
  lemma MissedEvent(start: Table, t: Table, log: seq<Push>, fates: map<EventId, Fate>, now: Time, limit: nat,
                    rows: seq<EventId>, id: EventId)
    requires Accounted(start, t, log, fates) && IsBatch(t, now, limit, rows)
    requires id in t && Eligible(t[id], now) && id !in rows
    ensures |rows| == limit && |OpenEvents(start)| > limit
  {
    var found := set r | r in rows;
    DistinctSize(rows);
    assert forall r <- t.Keys | Eligible(t[r], now) :: r in OpenEvents(start);
    SubsetSize(found + {id}, OpenEvents(start));
  }

  /** A fetch that returns fewer rows than its limit, or has no more open events to find, misses none. */
  lemma BatchIsComplete(start: Table, t: Table, log: seq<Push>, fates: map<EventId, Fate>, now: Time, limit: nat,
                        rows: seq<EventId>)
    requires Accounted(start, t, log, fates) && IsBatch(t, now, limit, rows)
    requires |rows| < limit || |OpenEvents(start)| <= limit
    ensures forall id <- t.Keys | Eligible(t[id], now) :: id in rows
  {
    forall id <- t.Keys | Eligible(t[id], now)
      ensures id in rows
    {
      if id !in rows {
        MissedEvent(start, t, log, fates, now, limit, rows, id);
      }
    }
  }

  lemma {:induction false} DistinctSize(ids: seq<EventId>)
    requires NoDuplicates(ids)
    ensures |set id | id in ids| == |ids|
  {
    if ids != [] {
      var init, last := ids[..|ids| - 1], ids[|ids| - 1];
      DistinctSize(init);
      assert ids == init + [last] && last !in init;
      assert (set id | id in ids) == (set id | id in init) + {last};
    }
  }

  /** Once nothing eligible is left outside the last batch, everything eligible at the start has a fate. */
  lemma NothingForgotten(start: Table, t: Table, log: seq<Push>, fates: map<EventId, Fate>, rows: seq<EventId>,
                         first: Time, now: Time)
    requires Accounted(start, t, log, fates) && first <= now
    requires forall id <- t.Keys | Eligible(t[id], now) :: id in rows
    ensures forall id <- start.Keys | Eligible(Reset(start, false)[id], first) :: id in fates || id in rows
  {
    forall id <- start.Keys | Eligible(Reset(start, false)[id], first)
      ensures id in fates || id in rows
    {
      if id !in fates {
        assert Eligible(t[id], now);
      }
    }
  }

  /** Before the first fetch, or accounted for. */
  ghost predicate Known(start: Table, t: Table, log: seq<Push>, fates: map<EventId, Fate>) {
    Accounted(start, t, log, fates) || (t == start && log == [] && fates == map[])
  }

  /** Every event that was eligible at the start was fetched. */
  ghost predicate TakenOn(start: Table, first: Time, fates: map<EventId, Fate>) {
    forall id <- start.Keys | Eligible(Reset(start, false)[id], first) :: id in fates
  }

  /** One turn of the loop keeps the accounts, and a fetch that misses nothing completes them. */
  lemma TurnAccounts(start: Table, t: Table, log: seq<Push>, fates: map<EventId, Fate>, limit: nat, max: int,
                     leq: Collation, answer: Answer, retryCount: nat, turn: Turn, first: Time)
    requires Known(start, t, log, fates) && first <= turn.now
    requires IsTurn(t, limit, max, leq, answer, retryCount, turn)
    ensures var fates' := WithFates(fates, Reset(t, false), turn.rows, |log|);
      && Accounted(start, turn.table, log + turn.more, fates')
      && (|turn.rows| < limit || |OpenEvents(start)| <= limit ==> TakenOn(start, first, fates'))
  {
    var fetched := Reset(t, false);
    FetchAccounts(start, t, log, fates);
    if |turn.rows| < limit || |OpenEvents(start)| <= limit {
      BatchIsComplete(start, fetched, log, fates, turn.now, limit, turn.rows);
      NothingForgotten(start, fetched, log, fates, turn.rows, first, turn.now);
    }
    PassAccounts(start, fetched, turn.rows, turn.push, turn.now, turn.table, log, turn.more, fates);
  }

  lemma HoldsMore(start: Table, p: Push, fates: map<EventId, Fate>, more: map<EventId, Fate>, leq: Collation)
    requires HoldsFetched(start, p, fates, leq) && fates.Keys <= more.Keys
    ensures HoldsFetched(start, p, more, leq)
  {
  }

  lemma RequestHolds(start: Table, t: Table, log: seq<Push>, fates: map<EventId, Fate>, rows: seq<EventId>, p: Push,
                     n: nat, leq: Collation)
    requires Accounted(start, t, log, fates) && IsRequest(t, rows, p, leq)
    ensures HoldsFetched(start, p, WithFates(fates, t, rows, n), leq)
  {
    forall id <- t.Keys
      ensures t[id].payload == start[id].payload
    {
    }
  }

  lemma RequestLoad(t: Table, rows: seq<EventId>, p: Push, leq: Collation)
    requires IsRequest(t, rows, p, leq)
    ensures forall id <- Load(p) :: id in rows
  {
  }

  lemma TurnNamesLast(log: seq<Push>, fates: map<EventId, Fate>, t: Table, rows: seq<EventId>, more: seq<Push>,
                      leq: Collation)
    requires NamesLast(log, fates) && |more| <= 1 && forall p <- more :: IsRequest(t, rows, p, leq)
    requires forall id <- rows :: id in t
    ensures NamesLast(log + more, WithFates(fates, t, rows, |log|))
  {
    var fates' := WithFates(fates, t, rows, |log|);
    forall id <- fates'.Keys, m: nat | fates'[id].Carried? && fates'[id].push < m < |log + more|
      ensures id !in Load((log + more)[m])
    {
      assert id !in rows && fates'[id] == fates[id];
      if m == |log| {
        assert (log + more)[m] == more[0] && more[0] in more;
        RequestLoad(t, rows, more[0], leq);
      } else {
        assert (log + more)[m] == log[m];
      }
    }
  }

  /** One turn keeps the log tied to the events. */
  lemma TurnTies(start: Table, t: Table, log: seq<Push>, fates: map<EventId, Fate>, limit: nat, max: int,
                 leq: Collation, answer: Answer, retryCount: nat, turn: Turn)
    requires Known(start, t, log, fates) && Tied(start, log, fates, leq)
    requires IsTurn(t, limit, max, leq, answer, retryCount, turn)
    ensures Tied(start, log + turn.more, WithFates(fates, Reset(t, false), turn.rows, |log|), leq)
  {
    var fetched := Reset(t, false);
    var fates' := WithFates(fates, fetched, turn.rows, |log|);
    FetchAccounts(start, t, log, fates);
    TurnNamesLast(log, fates, fetched, turn.rows, turn.more, leq);
    if turn.more != [] {
      RequestHolds(start, fetched, log, fates, turn.rows, turn.push, |log|, leq);
    }
    forall p <- log + turn.more
      ensures HoldsFetched(start, p, fates', leq)
    {
      if p in log {
        HoldsMore(start, p, fates, fates', leq);
      }
    }
  }

  /** With every push clean, nothing is left SENDING unless the run was aborted before its first fetch, and
      what was fetched has its final answer. */
  lemma CleanRunSettles(start: Table, t: Table, log: seq<Push>, fates: map<EventId, Fate>, id: EventId)
    requires Known(start, t, log, fates) && (forall p <- log :: IsClean(p)) && id in t
    ensures t[id].status == Sending ==> t == start && log == [] && fates == map[]
    ensures id in fates ==> t[id].status in {Synced, Rejected, Retryable}
    ensures id in fates && t[id].payload.Movement? ==>
              exists p <- log :: var item := ItemOf(id, t[id].payload);
                && item in p.items && HasReceipt(item, p.answer)
                && Earned(t[id].status, t[id].error, item.txn, p.answer.receipts)
  {
    if id in fates && fates[id].Carried? {
      var p := log[fates[id].push];
      assert p in log;
      if t[id].payload.Movement? {
        VerdictIsEarned(ItemOf(id, t[id].payload), p.answer.receipts);
      }
    }
  }

  /** A run that ends as a success has delivered everything it fetched that could be read. */
  lemma SuccessMeansDelivered(start: Table, t: Table, log: seq<Push>, fates: map<EventId, Fate>, id: EventId)
    requires Accounted(start, t, log, fates) && (forall p <- log :: IsClean(p) && Refused(p.items, p.answer) == 0)
    requires id in fates
    ensures t[id].status == if t[id].payload.Unreadable? then Rejected else Synced
    ensures t[id].payload.Movement? ==> exists p <- log :: IsAccepted(ItemOf(id, t[id].payload), p.answer)
  {
    if fates[id].Carried? {
      var p := log[fates[id].push];
      assert p in log;
      NoneRefused(p.items, p.answer);
    }
  }

  // ---------------------------------------------------------------- pushes

  /** The retry counter after a list of pushes. */
  function RetryCount(log: seq<Push>, max: int): nat {
    if log == [] then 0
    else NextRetry(RetryCount(log[..|log| - 1], max), log[|log| - 1], max)
  }

  /** What the loop variables say about the pushes made so far. */
  ghost predicate Recorded(log: seq<Push>, limit: nat, max: int, failed: bool, refused: nat, retryCount: nat) {
    && (!failed <==> forall p <- log :: IsClean(p))
    && (refused == 0 <==> forall p <- log :: Refused(p.items, p.answer) == 0)
    && retryCount == RetryCount(log, max)
    && forall p <- log :: |p.items| + |p.products| <= limit
  }

  lemma Record(log: seq<Push>, limit: nat, max: int, failed: bool, refused: nat, retryCount: nat, turn: Turn)
    requires Recorded(log, limit, max, failed, refused, retryCount) && IsReport(retryCount, max, turn)
    requires turn.more == [] || (turn.more == [turn.push] && |turn.push.items| + |turn.push.products| <= limit)
    ensures Recorded(log + turn.more, limit, max, failed || turn.failed, refused + turn.refused, turn.retryCount)
  {
    if turn.more == [] {
      assert log + turn.more == log;
    } else {
      assert (log + turn.more)[..|log|] == log;
    }
  }

  /** Every failed push before the last one was within the retry limit. */
  ghost predicate RetriedWithin(log: seq<Push>, n: int, max: int) {
    forall i: nat | i < n <= |log| && log[i].answer.Threw? :: RetryCount(log[..i], max) < max
  }

  lemma RetryAppend(log: seq<Push>, max: int, turn: Turn)
    requires RetriedWithin(log, |log|, max) && IsReport(RetryCount(log, max), max, turn)
    requires turn.more == [] || turn.more == [turn.push]
    ensures RetriedWithin(log + turn.more, |log + turn.more| - 1, max)
    ensures !turn.givenUp ==> RetriedWithin(log + turn.more, |log + turn.more|, max)
  {
    forall i: nat | i <= |log|
      ensures (log + turn.more)[..i] == log[..i]
    {
    }
  }

  /** Failures in a row are counted one by one, up to the limit. */
  lemma {:induction false} FailuresCount(log: seq<Push>, max: int)
    requires forall p <- log :: p.answer.Threw?
    ensures RetryCount(log, max) == if |log| <= max then |log| else if max < 0 then 0 else max
  {
    if log != [] {
      FailuresCount(log[..|log| - 1], max);
    }
  }

  /** An answer starts the count afresh, with the refusals that may pass. */
  lemma AnswerResetsCount(log: seq<Push>, p: Push, max: int)
    requires p.answer.Answered?
    ensures var passing := Passing(p.items, p.answer.receipts);
      RetryCount(log + [p], max) == if passing <= max then passing else if max < 0 then 0 else max
  {
    assert (log + [p])[..|log|] == log;
    DeferredArePassing(p.items, p.answer.receipts);
  }

  /** A run in which every request fails gives up after its first request and as many more as it may retry. */
  lemma FailingRunLength(log: seq<Push>, max: int)
    requires log != [] && (forall p <- log :: p.answer.Threw?)
    requires RetriedWithin(log, |log| - 1, max) && Exhausted(log, max)
    ensures |log| == if max < 0 then 1 else max + 1
  {
    FailuresCount(log[..|log| - 1], max);
    if |log| > 1 {
      assert log[|log| - 2].answer.Threw?;
      FailuresCount(log[..|log| - 2], max);
    }
  }

  /** The last push failed. */
  predicate Failing(log: seq<Push>) {
    log != [] && log[|log| - 1].answer.Threw?
  }

  /** No retry was left for the last push. */
  predicate Exhausted(log: seq<Push>, max: int) {
    log != [] && RetryCount(log[..|log| - 1], max) >= max
  }

  // ---------------------------------------------------------------- after each turn

  /** The batch size stays within the fetch limit, or so do the events. */
  ghost predicate FetchesAll(start: Table, batchSize: int) {
    batchSize <= MAX_BATCH || |OpenEvents(start)| <= MAX_BATCH
  }

  /** What the loop knows about the events, while it goes on (`going`) and when it ends. */
  ghost predicate Accounts(start: Table, first: Time, batchSize: int, t: Table, log: seq<Push>,
                           fates: map<EventId, Fate>, failed: bool, going: bool) {
    && Known(start, t, log, fates)
    && (!going ==> Accounted(start, t, log, fates))
    && (!going && !failed && FetchesAll(start, batchSize) ==> TakenOn(start, first, fates))
  }

  /** What it knows about a failed last push. */
  ghost predicate Retries(max: int, t: Table, log: seq<Push>, going: bool) {
    Failing(log) ==> if going then Waiting(t) else Exhausted(log, max)
  }

  lemma TurnKeepsRetries(batchSize: int, max: int, t: Table, log: seq<Push>, leq: Collation, answer: Answer,
                         retryCount: nat, turn: Turn)
    requires Retries(max, t, log, true) && retryCount == RetryCount(log, max)
    requires IsTurn(t, BatchLimit(batchSize), max, leq, answer, retryCount, turn)
    ensures Retries(max, turn.table, log + turn.more, !Stops(batchSize, turn))
  {
    if turn.more == [] {
      assert log + turn.more == log;
      if Waiting(t) {
        StillWaiting(t, turn.now, BatchLimit(batchSize), turn.rows, turn.push, turn.table);
      }
    } else {
      assert (log + turn.more)[..|log|] == log && (log + turn.more)[|log|] == turn.push;
    }
  }
}
