/** A whole sync run: the push loop with its retries, and the gate in front of the pull. */
module SyncRun {
  import opened Types
  import opened Sums
  import opened Outbox
  import opened PushOrder
  import opened Delivery
  import opened PushTurn
  import opened SyncAccounts

  datatype Outcome = Failed | Partial | Success

  /** What a run starts from and meets: the outbox, its configuration, the collation of ids, the clock by
      reading, and the server by request. */
  datatype Setting = Setting(start: Table, batchSize: int, maxRetries: int, leq: Collation, clock: nat -> Time,
                             server: nat -> Answer)

  // ---------------------------------------------------------------- the turns of a run

  ghost function TableAfter(g: Setting, trace: seq<Turn>): Table {
    if trace == [] then g.start else trace[|trace| - 1].table
  }

  ghost function TickAfter(trace: seq<Turn>): nat {
    if trace == [] then 0 else trace[|trace| - 1].last
  }

  ghost function RetriesAfter(trace: seq<Turn>): nat {
    if trace == [] then 0 else trace[|trace| - 1].retryCount
  }

  /** The requests made, in order. */
  ghost function LogOf(trace: seq<Turn>): seq<Push> {
    if trace == [] then [] else LogOf(trace[..|trace| - 1]) + trace[|trace| - 1].more
  }

  ghost predicate FailedIn(trace: seq<Turn>) {
    trace != [] && (FailedIn(trace[..|trace| - 1]) || trace[|trace| - 1].failed)
  }

  ghost function RefusedIn(trace: seq<Turn>): nat {
    if trace == [] then 0 else RefusedIn(trace[..|trace| - 1]) + trace[|trace| - 1].refused
  }

  /** The loop goes on after these turns. */
  ghost predicate Goes(g: Setting, trace: seq<Turn>) {
    trace == [] || !Stops(g.batchSize, trace[|trace| - 1])
  }

  /** Each turn starts where the one before left off, at a later clock reading, and the server answers the next
      request. */
  ghost predicate IsTrace(g: Setting, trace: seq<Turn>)
    decreases |trace|
  {
    trace == [] ||
    var init, turn := trace[..|trace| - 1], trace[|trace| - 1];
    && IsTrace(g, init) && Goes(g, init)
    && TickAfter(init) < turn.tick <= turn.last && turn.now == g.clock(turn.tick)
    && IsTurn(TableAfter(g, init), BatchLimit(g.batchSize), g.maxRetries, g.leq, g.server(|LogOf(init)|),
              RetriesAfter(init), turn)
  }

  /** What became of the events the turns fetched. */
  ghost function FatesOf(g: Setting, trace: seq<Turn>): map<EventId, Fate> {
    if trace == [] then map[]
    else
      var init := trace[..|trace| - 1];
      WithFates(FatesOf(g, init), Reset(TableAfter(g, init), false), trace[|trace| - 1].rows, |LogOf(init)|)
  }

  lemma LongerTrace(g: Setting, trace: seq<Turn>, turn: Turn)
    ensures var longer := trace + [turn];
      && longer[..|longer| - 1] == trace && longer[|longer| - 1] == turn
      && TableAfter(g, longer) == turn.table && TickAfter(longer) == turn.last
      && RetriesAfter(longer) == turn.retryCount && LogOf(longer) == LogOf(trace) + turn.more
      && FailedIn(longer) == (FailedIn(trace) || turn.failed) && RefusedIn(longer) == RefusedIn(trace) + turn.refused
      && Goes(g, longer) == !Stops(g.batchSize, turn)
  {
    var longer := trace + [turn];
    assert longer[..|longer| - 1] == trace;
  }

  lemma OneMoreTurn(g: Setting, trace: seq<Turn>, turn: Turn)
    requires IsTrace(g, trace) && Goes(g, trace)
    requires TickAfter(trace) < turn.tick <= turn.last && turn.now == g.clock(turn.tick)
    requires IsTurn(TableAfter(g, trace), BatchLimit(g.batchSize), g.maxRetries, g.leq, g.server(|LogOf(trace)|),
                    RetriesAfter(trace), turn)
    ensures IsTrace(g, trace + [turn])
  {
    LongerTrace(g, trace, turn);
  }

  /** What the pushes of a trace report, without the tables. */
  ghost predicate IsPushTrace(g: Setting, trace: seq<Turn>)
    decreases |trace|
  {
    trace == [] ||
    var init, turn := trace[..|trace| - 1], trace[|trace| - 1];
    && IsPushTrace(g, init) && Goes(g, init)
    && IsReport(RetriesAfter(init), g.maxRetries, turn)
    && |turn.rows| <= BatchLimit(g.batchSize)
    && (turn.more == [] || turn.more == [turn.push])
    && (turn.more != [] ==>
          && turn.push.answer == g.server(|LogOf(init)|) && turn.rows != []
          && |turn.push.items| + |turn.push.products| <= BatchLimit(g.batchSize))
  }

  lemma TurnPushes(t: Table, limit: nat, max: int, leq: Collation, answer: Answer, retryCount: nat, turn: Turn)
    requires IsTurn(t, limit, max, leq, answer, retryCount, turn)
    ensures IsReport(retryCount, max, turn) && |turn.rows| <= limit
    ensures turn.more == [] || turn.more == [turn.push]
    ensures turn.more != [] ==>
              turn.push.answer == answer && turn.rows != [] && |turn.push.items| + |turn.push.products| <= limit
  {
  }

  lemma {:induction false} TracePushes(g: Setting, trace: seq<Turn>)
    requires IsTrace(g, trace)
    ensures IsPushTrace(g, trace)
    decreases |trace|
  {
    if trace != [] {
      var init, turn := trace[..|trace| - 1], trace[|trace| - 1];
      TracePushes(g, init);
      TurnPushes(TableAfter(g, init), BatchLimit(g.batchSize), g.maxRetries, g.leq, g.server(|LogOf(init)|),
                 RetriesAfter(init), turn);
    }
  }

  // ---------------------------------------------------------------- what every run keeps

  /** Every answer in the log is the server's answer to that request. */
  ghost predicate FromServer(log: seq<Push>, server: nat -> Answer) {
    forall i: nat | i < |log| :: log[i].answer == server(i)
  }

  lemma {:induction false} LogIsFromServer(g: Setting, trace: seq<Turn>)
    requires IsPushTrace(g, trace)
    ensures FromServer(LogOf(trace), g.server)
    decreases |trace|
  {
    if trace != [] {
      LogIsFromServer(g, trace[..|trace| - 1]);
    }
  }

  lemma {:induction false} TraceAccounts(g: Setting, trace: seq<Turn>)
    requires IsTrace(g, trace) && IsClock(g.clock)
    ensures Accounts(g.start, g.clock(0), g.batchSize, TableAfter(g, trace), LogOf(trace), FatesOf(g, trace),
                     FailedIn(trace), Goes(g, trace))
    ensures trace != [] ==> Accounted(g.start, TableAfter(g, trace), LogOf(trace), FatesOf(g, trace))
    decreases |trace|
  {
    if trace != [] {
      var init, turn := trace[..|trace| - 1], trace[|trace| - 1];
      TraceAccounts(g, init);
      TurnAccounts(g.start, TableAfter(g, init), LogOf(init), FatesOf(g, init), BatchLimit(g.batchSize), g.maxRetries,
                   g.leq, g.server(|LogOf(init)|), RetriesAfter(init), turn, g.clock(0));
    }
  }

  lemma {:induction false} TraceTies(g: Setting, trace: seq<Turn>)
    requires IsTrace(g, trace) && IsClock(g.clock)
    ensures Tied(g.start, LogOf(trace), FatesOf(g, trace), g.leq)
    decreases |trace|
  {
    if trace != [] {
      var init, turn := trace[..|trace| - 1], trace[|trace| - 1];
      TraceTies(g, init);
      TraceAccounts(g, init);
      TurnTies(g.start, TableAfter(g, init), LogOf(init), FatesOf(g, init), BatchLimit(g.batchSize), g.maxRetries,
               g.leq, g.server(|LogOf(init)|), RetriesAfter(init), turn);
    }
  }

  lemma {:induction false} TraceRecorded(g: Setting, trace: seq<Turn>)
    requires IsPushTrace(g, trace)
    ensures Recorded(LogOf(trace), BatchLimit(g.batchSize), g.maxRetries, FailedIn(trace), RefusedIn(trace),
                     RetriesAfter(trace))
    decreases |trace|
  {
    if trace != [] {
      var init, turn := trace[..|trace| - 1], trace[|trace| - 1];
      TraceRecorded(g, init);
      Record(LogOf(init), BatchLimit(g.batchSize), g.maxRetries, FailedIn(init), RefusedIn(init), RetriesAfter(init),
             turn);
    }
  }

  lemma {:induction false} TraceRetried(g: Setting, trace: seq<Turn>)
    requires IsPushTrace(g, trace)
    ensures RetriedWithin(LogOf(trace), if Goes(g, trace) then |LogOf(trace)| else |LogOf(trace)| - 1, g.maxRetries)
    decreases |trace|
  {
    if trace != [] {
      var init, turn := trace[..|trace| - 1], trace[|trace| - 1];
      TraceRetried(g, init);
      TraceRecorded(g, init);
      RetryAppend(LogOf(init), g.maxRetries, turn);
    }
  }

  /** A batch size above the fetch limit ends a run that does not fail after its first request. */
  lemma {:induction false} OversizedTrace(g: Setting, trace: seq<Turn>)
    requires IsPushTrace(g, trace) && g.batchSize > MAX_BATCH && !FailedIn(trace)
    ensures |LogOf(trace)| <= 1 && (Goes(g, trace) ==> LogOf(trace) == [])
    decreases |trace|
  {
    if trace != [] {
      OversizedTrace(g, trace[..|trace| - 1]);
    }
  }

  lemma {:induction false} TraceRetries(g: Setting, trace: seq<Turn>)
    requires IsTrace(g, trace)
    ensures Retries(g.maxRetries, TableAfter(g, trace), LogOf(trace), Goes(g, trace))
    decreases |trace|
  {
    if trace != [] {
      var init, turn := trace[..|trace| - 1], trace[|trace| - 1];
      TraceRetries(g, init);
      TracePushes(g, init);
      TraceRecorded(g, init);
      TurnKeepsRetries(g.batchSize, g.maxRetries, TableAfter(g, init), LogOf(init), g.leq, g.server(|LogOf(init)|),
                       RetriesAfter(init), turn);
    }
  }

  /** What holds of a run whenever it is looked at, and (if the loop does not go on) when it ends. */
  lemma RunHolds(g: Setting, trace: seq<Turn>)
    requires IsTrace(g, trace) && IsClock(g.clock)
    ensures FromServer(LogOf(trace), g.server) && Tied(g.start, LogOf(trace), FatesOf(g, trace), g.leq)
    ensures Known(g.start, TableAfter(g, trace), LogOf(trace), FatesOf(g, trace))
    ensures Recorded(LogOf(trace), BatchLimit(g.batchSize), g.maxRetries, FailedIn(trace), RefusedIn(trace),
                     RetriesAfter(trace))
    ensures RetriedWithin(LogOf(trace), |LogOf(trace)| - 1, g.maxRetries)
    ensures !FailedIn(trace) && g.batchSize > MAX_BATCH ==> |LogOf(trace)| <= 1
    ensures !Goes(g, trace) && !FailedIn(trace) && FetchesAll(g.start, g.batchSize) ==>
              TakenOn(g.start, g.clock(0), FatesOf(g, trace))
    ensures !Goes(g, trace) && Failing(LogOf(trace)) ==> Exhausted(LogOf(trace), g.maxRetries)
  {
    TracePushes(g, trace);
    LogIsFromServer(g, trace);
    TraceAccounts(g, trace);
    TraceTies(g, trace);
    TraceRecorded(g, trace);
    TraceRetried(g, trace);
    TraceRetries(g, trace);
    if g.batchSize > MAX_BATCH && !FailedIn(trace) {
      OversizedTrace(g, trace);
    }
  }

  // ---------------------------------------------------------------- the loop

  /** No abort check before this one has found the caller to have aborted. */
  ghost predicate NotAbortedBefore(aborted: nat -> bool, checks: nat) {
    forall n: nat | n < checks :: !aborted(n)
  }

  lemma OneMoreCheck(aborted: nat -> bool, checks: nat)
    requires NotAbortedBefore(aborted, checks) && !aborted(checks)
    ensures NotAbortedBefore(aborted, checks + 1)
  {
  }

  ghost function WorkAfter(g: Setting, limit: Limit, trace: seq<Turn>): int {
    Work(limit, TableAfter(g, trace), g.clock(TickAfter(trace)), |trace|)
  }

  /** The turns so far, all before the caller aborts and within the limit. */
  ghost predicate IsUnderWay(g: Setting, aborted: nat -> bool, limit: Limit, trace: seq<Turn>) {
    && IsTrace(g, trace) && NotAbortedBefore(aborted, |trace|)
    && StillFits(limit, TableAfter(g, trace), g.clock(TickAfter(trace)))
  }

  lemma TurnAdvances(g: Setting, aborted: nat -> bool, limit: Limit, trace: seq<Turn>, turn: Turn)
    requires IsClock(g.clock) && IsLimit(limit, g.start, g.clock, aborted)
    requires IsUnderWay(g, aborted, limit, trace) && Goes(g, trace) && !aborted(|trace|)
    requires TickAfter(trace) < turn.tick <= turn.last && turn.now == g.clock(turn.tick)
    requires IsTurn(TableAfter(g, trace), BatchLimit(g.batchSize), g.maxRetries, g.leq, g.server(|LogOf(trace)|),
                    RetriesAfter(trace), turn)
    ensures IsUnderWay(g, aborted, limit, trace + [turn])
    ensures WorkAfter(g, limit, trace) >= 0
    ensures Goes(g, trace + [turn]) ==>
              || WorkAfter(g, limit, trace + [turn]) < WorkAfter(g, limit, trace)
              || (&& WorkAfter(g, limit, trace + [turn]) == WorkAfter(g, limit, trace)
                  && Budget(turn.retryCount, g.maxRetries) < Budget(RetriesAfter(trace), g.maxRetries))
  {
    LongerTrace(g, trace, turn);
    OneMoreTurn(g, trace, turn);
    OneMoreCheck(aborted, |trace|);
    TurnUsesWork(limit, g.start, g.clock, aborted, TableAfter(g, trace), g.batchSize, g.maxRetries, g.leq,
                 g.server(|LogOf(trace)|), RetriesAfter(trace), TickAfter(trace), turn, |trace|);
  }

  /** The push loop. */
  method PushLoop(g: Setting, aborted: nat -> bool, ghost limit: Limit)
    returns (table: Table, log: seq<Push>, failed: bool, refused: nat, ghost trace: seq<Turn>, ghost cut: bool)
    requires IsClock(g.clock) && IsLimit(limit, g.start, g.clock, aborted)
    ensures IsTrace(g, trace) && NotAbortedBefore(aborted, |trace|)
    ensures if cut then aborted(|trace|) && Goes(g, trace) else !Goes(g, trace)
    ensures table == TableAfter(g, trace) && log == LogOf(trace)
    ensures failed == FailedIn(trace) && refused == RefusedIn(trace)
  {
    table, log, failed, refused := g.start, [], false, 0;
    trace, cut := [], false;
    var retryCount, tick, checks := 0, 0, 0;
    var keepGoing := true;
    while keepGoing
      invariant IsUnderWay(g, aborted, limit, trace) && keepGoing == Goes(g, trace) && !cut
      invariant table == TableAfter(g, trace) && log == LogOf(trace) && tick == TickAfter(trace) && checks == |trace|
      invariant failed == FailedIn(trace) && refused == RefusedIn(trace) && retryCount == RetriesAfter(trace)
      decreases keepGoing, WorkAfter(g, limit, trace), Budget(retryCount, g.maxRetries)
    {
      if aborted(checks) {
        cut := true;
        break;
      }
      var turn := TakeTurn(table, g.batchSize, retryCount, g.maxRetries, g.leq, g.server(|log|), g.clock, tick);
      TurnAdvances(g, aborted, limit, trace, turn);
      LongerTrace(g, trace, turn);
      trace := trace + [turn];
      table, log, tick, checks := turn.table, log + turn.more, turn.last, checks + 1;
      retryCount := turn.retryCount;
      failed := failed || turn.failed;
      refused := refused + turn.refused;
      keepGoing := !Stops(g.batchSize, turn);
    }
  }

  /** triggerSync without force, by one caller at a time, with status writes that succeed: the push loop, and
      the pull only if nothing in it failed. The clock is any non-decreasing one, the server any function of the
      request number. */
  method TriggerSync(g: Setting, aborted: nat -> bool, ghost limit: Limit)
    returns (table: Table, log: seq<Push>, pulls: bool, outcome: Outcome, ghost trace: seq<Turn>, ghost cut: bool)
    requires IsClock(g.clock) && IsLimit(limit, g.start, g.clock, aborted)
    ensures IsTrace(g, trace) && table == TableAfter(g, trace) && log == LogOf(trace)
    ensures NotAbortedBefore(aborted, |trace|) && (if cut then aborted(|trace|) && Goes(g, trace) else !Goes(g, trace))
    ensures FromServer(log, g.server) && Tied(g.start, log, FatesOf(g, trace), g.leq)
    ensures Known(g.start, table, log, FatesOf(g, trace))
    ensures pulls <==> forall p <- log :: IsClean(p)
    ensures outcome == if !pulls then Failed
                       else if exists p <- log :: Refused(p.items, p.answer) > 0 then Partial else Success
    ensures pulls && !cut && FetchesAll(g.start, g.batchSize) ==> TakenOn(g.start, g.clock(0), FatesOf(g, trace))
    ensures pulls && g.batchSize > MAX_BATCH ==> |log| <= 1
    ensures forall p <- log :: |p.items| + |p.products| <= BatchLimit(g.batchSize)
    ensures RetriedWithin(log, |log| - 1, g.maxRetries)
    ensures !cut && Failing(log) ==> Exhausted(log, g.maxRetries)
  {
    var hadRetryableError, totalRejected;
    table, log, hadRetryableError, totalRejected, trace, cut := PushLoop(g, aborted, limit);
    RunHolds(g, trace);
    pulls := !hadRetryableError;
    outcome := if hadRetryableError then Failed else if totalRejected > 0 then Partial else Success;
  }

  /** Behind the gate: when a run pulls, the server has answered a request with every event that was ready, and
      has sent a receipt for it if it is a movement. */
  lemma PullFollowsAnswers(g: Setting, trace: seq<Turn>, id: EventId)
    requires IsClock(g.clock) && IsTrace(g, trace) && !Goes(g, trace) && FetchesAll(g.start, g.batchSize)
    requires !FailedIn(trace) && id in Ready(g.start, g.clock(0))
    ensures exists n: nat ::
              && n < |LogOf(trace)| && id in Load(LogOf(trace)[n]) && g.server(n).Answered?
              && (g.start[id].payload.Movement? ==> HasReceipt(ItemOf(id, g.start[id].payload), g.server(n)))
  {
    RunHolds(g, trace);
    TraceAccounts(g, trace);
    CarriedIsInLoad(g.start, TableAfter(g, trace), LogOf(trace), FatesOf(g, trace), id);
    var n := FatesOf(g, trace)[id].push;
    assert LogOf(trace)[n] in LogOf(trace);
  }

  lemma CarriedIsInLoad(start: Table, t: Table, log: seq<Push>, fates: map<EventId, Fate>, id: EventId)
    requires Accounted(start, t, log, fates) && id in fates && !start[id].payload.Unreadable?
    ensures fates[id].Carried? && fates[id].push < |log| && id in Load(log[fates[id].push])
    ensures start[id].payload.Movement? ==> ItemOf(id, start[id].payload) in log[fates[id].push].items
  {
    assert Shows(id, t[id], fates[id], log);
    if start[id].payload.Movement? {
      assert ItemOf(id, start[id].payload).row == id;
    }
  }

  // ---------------------------------------------------------------- batches above the fetch limit

  lemma {:induction false} SizeOfRows(items: seq<Item>)
    ensures |set x <- items :: x.row| <= |items|
  {
    if items != [] {
      var init, last := items[..|items| - 1], items[|items| - 1];
      SizeOfRows(init);
      assert items == init + [last];
      assert (set x <- items :: x.row) == (set x <- init :: x.row) + {last.row};
    }
  }

  lemma {:induction false} SizeOfIds(ids: seq<EventId>)
    ensures |set id | id in ids| <= |ids|
  {
    if ids != [] {
      var init, last := ids[..|ids| - 1], ids[|ids| - 1];
      SizeOfIds(init);
      assert ids == init + [last];
      assert (set id | id in ids) == (set id | id in init) + {last};
    }
  }

  lemma LoadSize(p: Push)
    ensures |Load(p)| <= |p.items| + |p.products|
  {
    SizeOfRows(p.items);
    SizeOfIds(p.products);
  }

  ghost function Ready(start: Table, first: Time): set<EventId> {
    set id <- start.Keys | Eligible(Reset(start, false)[id], first) && !start[id].payload.Unreadable?
  }

  /** With a batch size above the fetch limit the run stops after one request, so any start with more events
      than one fetch returns has some left over when the run pulls. */
  lemma OversizedBatchForgets(start: Table, t: Table, log: seq<Push>, fates: map<EventId, Fate>, first: Time)
    requires Accounted(start, t, log, fates) && |log| <= 1
    requires forall p <- log :: |p.items| + |p.products| <= MAX_BATCH
    requires |Ready(start, first)| > MAX_BATCH
    ensures !TakenOn(start, first, fates)
  {
    if TakenOn(start, first, fates) {
      var load := if log == [] then {} else Load(log[0]);
      forall id <- Ready(start, first)
        ensures id in load
      {
        assert Shows(id, t[id], fates[id], log) && fates[id] == Carried(0);
        if t[id].payload.Movement? {
          assert ItemOf(id, t[id].payload).row == id;
        }
      }
      if log != [] {
        LoadSize(log[0]);
      }
      SubsetSize(Ready(start, first), load);
    }
  }

  /** Exactly: where every open event can be read and is due, a run with a batch size above the fetch limit that
      pulls has taken all of them on if and only if one fetch can hold them. */
  lemma OversizedBatchExactly(g: Setting, trace: seq<Turn>)
    requires IsClock(g.clock) && IsTrace(g, trace) && !Goes(g, trace) && !FailedIn(trace)
    requires g.batchSize > MAX_BATCH && OpenEvents(g.start) == Ready(g.start, g.clock(0))
    ensures TakenOn(g.start, g.clock(0), FatesOf(g, trace)) <==> |OpenEvents(g.start)| <= MAX_BATCH
  {
    TraceAccounts(g, trace);
    TracePushes(g, trace);
    TraceRecorded(g, trace);
    OversizedTrace(g, trace);
    if |OpenEvents(g.start)| > MAX_BATCH {
      OversizedBatchForgets(g.start, TableAfter(g, trace), LogOf(trace), FatesOf(g, trace), g.clock(0));
    }
  }
}
