/** The store service's push queue: direct pushes, the retry queue, its processing flag and its timer. */
module StoreQueue {

  /** A queued request (method, path and body) and the retries it has left. */
  datatype Item = Item(request: string, retries: nat)

  /** A push outside the queue, at its fetch number `attempt` or in the wait that follows it. */
  datatype Direct = Direct(request: string, attempt: nat, waiting: bool)

  /** The module variables and what the suspended calls hold. `batch` is what the processing call still has to
      push, its first item at fetch number `attempt`, or in the wait that follows it. */
  datatype State = State(
    queue: seq<Item>,
    isProcessing: bool,
    timer: bool,
    batch: seq<Item>,
    attempt: nat,
    waiting: bool,
    direct: seq<Direct>,
    submitted: seq<string>,
    delivered: seq<string>)

  const DIRECT_RETRIES := 3
  const QUEUED_RETRIES := 2

  // ---------------------------------------------------------------- steps between two awaits

  /** What can run next: a new push, an answer or an elapsed wait of a direct push or of the processing call,
      the timer, and the browser going online. */
  datatype Event =
    | Submit(request: string)
    | DirectReply(i: nat, ok: bool)
    | DirectWaited(i: nat)
    | BatchReply(ok: bool)
    | BatchWaited
    | TimerFires
    | GoesOnline

  /** _processPushQueue up to its first await. */
  function Process(s: State): State {
    if s.isProcessing || s.queue == [] then s
    else s.(isProcessing := true, batch := s.queue, queue := [], attempt := 0, waiting := false)
  }

  /** The processing loop after its current item: the next one, or the end with a retry for what is queued. */
  function NextItem(s: State): State
    requires s.batch != []
  {
    var t := s.(batch := s.batch[1..], attempt := 0, waiting := false);
    if t.batch != [] then t
    else t.(isProcessing := false, timer := t.timer || t.queue != [])
  }

  function Requeued(x: Item): Item {
    x.(retries := if x.retries == 0 then 0 else x.retries - 1)
  }

  function Without<T>(s: seq<T>, i: nat): seq<T>
    requires i < |s|
  {
    s[..i] + s[i + 1..]
  }

  /** An event that does not apply changes nothing. */
  function Next(s: State, e: Event): State {
    match e
    case Submit(request) =>
      s.(direct := s.direct + [Direct(request, 0, false)], submitted := s.submitted + [request])
    case DirectReply(i, ok) =>
      if i >= |s.direct| || s.direct[i].waiting then s
      else
        var d := s.direct[i];
        if ok then s.(direct := Without(s.direct, i), delivered := s.delivered + [d.request])
        else if d.attempt == DIRECT_RETRIES then
          Process(s.(direct := Without(s.direct, i), queue := s.queue + [Item(d.request, QUEUED_RETRIES)]))
        else s.(direct := s.direct[i := d.(waiting := true)])
    case DirectWaited(i) =>
      if i >= |s.direct| || !s.direct[i].waiting then s
      else s.(direct := s.direct[i := Direct(s.direct[i].request, s.direct[i].attempt + 1, false)])
    case BatchReply(ok) =>
      if s.batch == [] || s.waiting then s
      else
        var x := s.batch[0];
        if ok then NextItem(s.(delivered := s.delivered + [x.request]))
        else if s.attempt < x.retries then s.(waiting := true)
        else NextItem(s.(queue := s.queue + [Requeued(x)]))
    case BatchWaited =>
      if s.batch == [] || !s.waiting then s else s.(waiting := false, attempt := s.attempt + 1)
    case TimerFires => if s.timer then Process(s.(timer := false)) else s
    case GoesOnline => Process(s)
  }

  // ---------------------------------------------------------------- no lost item, no lost wakeup

  /** How many elements of a list are for a request. */
  function Count<T>(xs: seq<T>, f: T -> string, request: string): nat {
    if xs == [] then 0
    else Count(xs[..|xs| - 1], f, request) + if f(xs[|xs| - 1]) == request then 1 else 0
  }

  function ItemRequest(x: Item): string {
    x.request
  }

  function DirectRequest(d: Direct): string {
    d.request
  }

  function Itself(request: string): string {
    request
  }

  function Queued(xs: seq<Item>, request: string): nat {
    Count(xs, ItemRequest, request)
  }

  function UnderWay(ds: seq<Direct>, request: string): nat {
    Count(ds, DirectRequest, request)
  }

  function Listed(xs: seq<string>, request: string): nat {
    Count(xs, Itself, request)
  }

  /** Every push is delivered, under way, in the current batch or in the queue, and in one of them only. */
  ghost predicate NothingLost(s: State, request: string) {
    Listed(s.submitted, request)
    == Listed(s.delivered, request) + UnderWay(s.direct, request) + Queued(s.batch, request) + Queued(s.queue, request)
  }

  /** What is queued will be looked at again. */
  predicate WillWakeUp(s: State) {
    s.queue != [] ==> s.isProcessing || s.timer
  }

  predicate InStep(s: State) {
    && (s.isProcessing <==> s.batch != [])
    && (s.batch != [] ==> s.attempt <= s.batch[0].retries && (s.waiting ==> s.attempt < s.batch[0].retries))
    && (forall x <- s.batch :: x.retries <= QUEUED_RETRIES)
    && (forall x <- s.queue :: x.retries <= QUEUED_RETRIES)
    && (forall d <- s.direct :: d.attempt <= DIRECT_RETRIES && (d.waiting ==> d.attempt < DIRECT_RETRIES))
  }

  predicate Valid(s: State) {
    InStep(s) && WillWakeUp(s)
  }

  const Idle := State([], false, false, [], 0, false, [], [], [])

  lemma {:induction false} CountConcat<T>(a: seq<T>, b: seq<T>, f: T -> string, r: string)
    ensures Count(a + b, f, r) == Count(a, f, r) + Count(b, f, r)
    decreases |b|
  {
    if b == [] {
      assert a + b == a;
    } else {
      CountConcat(a, b[..|b| - 1], f, r);
      assert (a + b)[..|a + b| - 1] == a + b[..|b| - 1];
    }
  }

  lemma CountOne<T>(x: T, f: T -> string, r: string)
    ensures Count([x], f, r) == if f(x) == r then 1 else 0
  {
    assert [x][..0] == [];
  }

  lemma CountAppend<T>(xs: seq<T>, x: T, f: T -> string, r: string)
    ensures Count(xs + [x], f, r) == Count(xs, f, r) + if f(x) == r then 1 else 0
  {
    assert (xs + [x])[..|xs|] == xs;
  }

  lemma CountHead<T>(xs: seq<T>, f: T -> string, r: string)
    requires xs != []
    ensures Count(xs, f, r) == Count(xs[1..], f, r) + if f(xs[0]) == r then 1 else 0
  {
    assert xs == [xs[0]] + xs[1..];
    CountConcat([xs[0]], xs[1..], f, r);
    CountOne(xs[0], f, r);
  }

  lemma CountWithout<T>(xs: seq<T>, i: nat, f: T -> string, r: string)
    requires i < |xs|
    ensures Count(xs, f, r) == Count(Without(xs, i), f, r) + if f(xs[i]) == r then 1 else 0
  {
    assert xs == xs[..i] + xs[i..];
    CountConcat(xs[..i], xs[i..], f, r);
    CountHead(xs[i..], f, r);
    assert xs[i..][1..] == xs[i + 1..];
    CountConcat(xs[..i], xs[i + 1..], f, r);
  }

  lemma CountReplace<T>(xs: seq<T>, i: nat, x: T, f: T -> string, r: string)
    requires i < |xs| && f(x) == f(xs[i])
    ensures Count(xs[i := x], f, r) == Count(xs, f, r)
  {
    CountWithout(xs, i, f, r);
    CountWithout(xs[i := x], i, f, r);
    assert Without(xs[i := x], i) == Without(xs, i);
  }

  lemma ProcessKeepsValid(s: State)
    requires InStep(s)
    ensures Valid(Process(s))
  {
  }

  lemma NextItemKeepsValid(s: State)
    requires InStep(s) && s.batch != []
    ensures Valid(NextItem(s))
  {
    forall x <- s.batch[1..]
      ensures x.retries <= QUEUED_RETRIES
    {
    }
  }

  lemma DirectReplyKeepsValid(s: State, i: nat, ok: bool)
    requires Valid(s)
    ensures Valid(Next(s, DirectReply(i, ok)))
  {
    if i < |s.direct| && !s.direct[i].waiting && !ok && s.direct[i].attempt == DIRECT_RETRIES {
      var t := s.(direct := Without(s.direct, i), queue := s.queue + [Item(s.direct[i].request, QUEUED_RETRIES)]);
      assert InStep(t);
      ProcessKeepsValid(t);
    }
  }

  lemma BatchReplyKeepsValid(s: State, ok: bool)
    requires Valid(s)
    ensures Valid(Next(s, BatchReply(ok)))
  {
    if s.batch != [] && !s.waiting {
      var x := s.batch[0];
      if ok {
        NextItemKeepsValid(s.(delivered := s.delivered + [x.request]));
      } else if s.attempt >= x.retries {
        NextItemKeepsValid(s.(queue := s.queue + [Requeued(x)]));
      }
    }
  }

  lemma NextKeepsValid(s: State, e: Event)
    requires Valid(s)
    ensures Valid(Next(s, e))
  {
    match e
    case Submit(request) =>
    case DirectReply(i, ok) => DirectReplyKeepsValid(s, i, ok);
    case DirectWaited(i) =>
    case BatchReply(ok) => BatchReplyKeepsValid(s, ok);
    case BatchWaited =>
    case TimerFires => ProcessKeepsValid(s.(timer := false));
    case GoesOnline => ProcessKeepsValid(s);
  }

  function One(request: string, r: string): nat {
    if request == r then 1 else 0
  }

  lemma QueuedAppend(xs: seq<Item>, x: Item, r: string)
    ensures Queued(xs + [x], r) == Queued(xs, r) + One(x.request, r)
  {
    CountAppend(xs, x, ItemRequest, r);
  }

  lemma QueuedHead(xs: seq<Item>, r: string)
    requires xs != []
    ensures Queued(xs, r) == Queued(xs[1..], r) + One(xs[0].request, r)
  {
    CountHead(xs, ItemRequest, r);
  }

  lemma ListedAppend(xs: seq<string>, x: string, r: string)
    ensures Listed(xs + [x], r) == Listed(xs, r) + One(x, r)
  {
    CountAppend(xs, x, Itself, r);
  }

  lemma UnderWayWithout(ds: seq<Direct>, i: nat, r: string)
    requires i < |ds|
    ensures UnderWay(ds, r) == UnderWay(Without(ds, i), r) + One(ds[i].request, r)
  {
    CountWithout(ds, i, DirectRequest, r);
  }

  lemma UnderWayReplace(ds: seq<Direct>, i: nat, d: Direct, r: string)
    requires i < |ds| && d.request == ds[i].request
    ensures UnderWay(ds[i := d], r) == UnderWay(ds, r)
  {
    CountReplace(ds, i, d, DirectRequest, r);
  }

  lemma ProcessKeepsItems(s: State, r: string)
    requires NothingLost(s, r) && InStep(s)
    ensures NothingLost(Process(s), r)
  {
  }

  lemma NextItemKeepsItems(s: State, r: string)
    requires s.batch != []
    requires Listed(s.submitted, r)
             == Listed(s.delivered, r) + UnderWay(s.direct, r) + Queued(s.batch[1..], r) + Queued(s.queue, r)
    ensures NothingLost(NextItem(s), r)
  {
  }

  lemma DirectKeepsItems(s: State, i: nat, ok: bool, r: string)
    requires NothingLost(s, r) && InStep(s)
    ensures NothingLost(Next(s, DirectReply(i, ok)), r)
  {
    if i < |s.direct| && !s.direct[i].waiting {
      var d := s.direct[i];
      UnderWayWithout(s.direct, i, r);
      if ok {
        ListedAppend(s.delivered, d.request, r);
      } else if d.attempt == DIRECT_RETRIES {
        var x := Item(d.request, QUEUED_RETRIES);
        QueuedAppend(s.queue, x, r);
        ProcessKeepsItems(s.(direct := Without(s.direct, i), queue := s.queue + [x]), r);
      } else {
        UnderWayReplace(s.direct, i, d.(waiting := true), r);
      }
    }
  }

  lemma BatchKeepsItems(s: State, ok: bool, r: string)
    requires NothingLost(s, r)
    ensures NothingLost(Next(s, BatchReply(ok)), r)
  {
    if s.batch != [] && !s.waiting {
      var x := s.batch[0];
      QueuedHead(s.batch, r);
      if ok {
        ListedAppend(s.delivered, x.request, r);
        NextItemKeepsItems(s.(delivered := s.delivered + [x.request]), r);
      } else if s.attempt >= x.retries {
        QueuedAppend(s.queue, Requeued(x), r);
        NextItemKeepsItems(s.(queue := s.queue + [Requeued(x)]), r);
      }
    }
  }

  lemma NextKeepsItems(s: State, e: Event, r: string)
    requires NothingLost(s, r) && InStep(s)
    ensures NothingLost(Next(s, e), r)
  {
    match e
    case Submit(request) =>
      CountAppend(s.direct, Direct(request, 0, false), DirectRequest, r);
      ListedAppend(s.submitted, request, r);
    case DirectReply(i, ok) => DirectKeepsItems(s, i, ok, r);
    case DirectWaited(i) =>
      if i < |s.direct| {
        UnderWayReplace(s.direct, i, Direct(s.direct[i].request, s.direct[i].attempt + 1, false), r);
      }
    case BatchReply(ok) => BatchKeepsItems(s, ok, r);
    case BatchWaited =>
    case TimerFires => ProcessKeepsItems(s.(timer := false), r);
    case GoesOnline => ProcessKeepsItems(s, r);
  }

  function Run(s: State, es: seq<Event>): State
    decreases |es|
  {
    if es == [] then s else Run(Next(s, es[0]), es[1..])
  }

  lemma {:induction false} RunKeepsValid(s: State, es: seq<Event>)
    requires Valid(s)
    ensures Valid(Run(s, es))
    decreases |es|
  {
    if es != [] {
      NextKeepsValid(s, es[0]);
      RunKeepsValid(Next(s, es[0]), es[1..]);
    }
  }

  /** At every await, whatever has happened: no push is lost, and what is queued will be looked at again. */
  lemma {:induction false} NothingLostNoWakeupLost(s: State, es: seq<Event>, r: string)
    requires Valid(s) && NothingLost(s, r)
    ensures NothingLost(Run(s, es), r)
    ensures Run(s, es).queue != [] ==> Run(s, es).isProcessing || Run(s, es).timer
    ensures Run(s, es).isProcessing <==> Run(s, es).batch != []
    decreases |es|
  {
    if es != [] {
      NextKeepsValid(s, es[0]);
      NextKeepsItems(s, es[0], r);
      NothingLostNoWakeupLost(Next(s, es[0]), es[1..], r);
    }
  }

  /** Runs start here. */
  lemma IdleIsValid(r: string)
    ensures Valid(Idle) && NothingLost(Idle, r)
  {
  }

  // ---------------------------------------------------------------- a cycle ends

  /** Fetches and waits a cycle can still make. */
  function Work(s: State): nat {
    Budget(s.batch) - if s.batch == [] then 0 else Spent(s)
  }

  function Budget(xs: seq<Item>): nat {
    if xs == [] then 0 else 2 * xs[0].retries + 1 + Budget(xs[1..])
  }

  function Spent(s: State): nat
    requires s.batch != []
    ensures Spent(s) <= Budget(s.batch)
  {
    var steps := 2 * s.attempt + if s.waiting then 1 else 0;
    if steps <= 2 * s.batch[0].retries then steps else 0
  }

  /** Every answer and every elapsed wait of the processing call brings its cycle nearer to the end, and no
      other event sets it back: the flag cannot stay set for ever. */
  lemma CycleAdvances(s: State, e: Event)
    requires Valid(s) && s.batch != []
    ensures Work(Next(s, e)) <= Work(s)
    ensures e.BatchReply? && !s.waiting ==> Work(Next(s, e)) < Work(s)
    ensures e.BatchWaited? && s.waiting ==> Work(Next(s, e)) < Work(s)
  {
  }

  /** What wakes an idle queue: the timer, which is spent by it, or going online. Everything queued becomes the
      batch, in order. */
  lemma QueueWakesUp(s: State)
    requires s.queue != [] && !s.isProcessing
    ensures var online := Next(s, GoesOnline);
      online.isProcessing && online.batch == s.queue && online.queue == [] && online.timer == s.timer
    ensures s.timer ==>
      var fired := Next(s, TimerFires);
      fired.isProcessing && fired.batch == s.queue && fired.queue == [] && !fired.timer
  {
  }

  /** A timer that fires is spent, whether the queue was busy or empty. */
  lemma TimerIsSpent(s: State)
    ensures !Next(s, TimerFires).timer
  {
  }

  // ---------------------------------------------------------------- how often a request is tried

  lemma RunOfOne(s: State, a: Event)
    ensures Run(s, [a]) == Next(s, a)
  {
    assert [a][1..] == [];
    assert Run(Next(s, a), []) == Next(s, a);
  }

  lemma RunOfTwo(s: State, a: Event, b: Event)
    ensures Run(s, [a, b]) == Next(Next(s, a), b)
  {
    assert [a, b][1..] == [b];
    RunOfOne(Next(s, a), b);
  }

  lemma FailedTry(s: State)
    requires s.batch != [] && !s.waiting && s.attempt < s.batch[0].retries
    ensures Run(s, [BatchReply(false), BatchWaited]) == s.(attempt := s.attempt + 1)
  {
    RunOfTwo(s, BatchReply(false), BatchWaited);
  }

  lemma LastTry(s: State)
    requires s.batch != [] && !s.waiting && s.attempt == s.batch[0].retries <= 2
    ensures Run(s, [BatchReply(false)]).queue
            == s.queue + [Item(s.batch[0].request, if s.batch[0].retries == 2 then 1 else 0)]
  {
    RunOfOne(s, BatchReply(false));
  }

  /** A queued request that keeps failing is fetched three times in its first cycle, twice in its second and once
      in every later one: it comes back with 1 retry, then with none for good. */
  lemma FailingItemComesBack(s: State)
    requires s.batch != [] && s.attempt == 0 && !s.waiting && s.batch[0].retries <= 2
    ensures var x := s.batch[0]; var no, later := BatchReply(false), BatchWaited;
      && (x.retries == 2 ==>
            && Run(s, [no, later] + [no, later] + [no]).queue == s.queue + [Item(x.request, 1)]
            && Run(s, [no, later] + [no, later]).queue == s.queue)
      && (x.retries == 1 ==>
            && Run(s, [no, later] + [no]).queue == s.queue + [Item(x.request, 0)]
            && Run(s, [no, later]).queue == s.queue)
      && (x.retries == 0 ==> Run(s, [no]).queue == s.queue + [Item(x.request, 0)])
  {
    var no, later := BatchReply(false), BatchWaited;
    var s1, s2 := s.(attempt := 1), s.(attempt := 2);
    if s.batch[0].retries == 0 {
      LastTry(s);
    } else {
      FailedTry(s);
      if s.batch[0].retries == 1 {
        LastTry(s1);
        RunConcat(s, [no, later], [no]);
      } else {
        FailedTry(s1);
        LastTry(s2);
        RunConcat(s, [no, later], [no, later]);
        RunConcat(s, [no, later] + [no, later], [no]);
      }
    }
  }

  /** A direct push is fetched four times before its request is queued, with 2 retries. */
  lemma FailingPushIsQueued(s: State, request: string)
    requires s.direct == [] && s.isProcessing
    ensures var no, later := DirectReply(0, false), DirectWaited(0);
      && Run(s, [Submit(request), no, later, no, later, no, later, no]).queue == s.queue + [Item(request, 2)]
      && Run(s, [Submit(request), no, later, no, later, no, later]).queue == s.queue
  {
    var no, later := DirectReply(0, false), DirectWaited(0);
    var es := [Submit(request), no, later, no, later, no, later];
    var s1 := Next(s, Submit(request));
    var s2 := Next(Next(s1, no), later);
    var s3 := Next(Next(s2, no), later);
    var s4 := Next(Next(s3, no), later);
    assert s4.direct == [Direct(request, 3, false)] && s4.queue == s.queue && s4.isProcessing;
    RunOfTwo(s1, no, later);
    RunOfTwo(s2, no, later);
    RunOfTwo(s3, no, later);
    assert es == [Submit(request)] + [no, later] + [no, later] + [no, later];
    RunOfOne(s, Submit(request));
    RunConcat(s, [Submit(request)], [no, later]);
    RunConcat(s, [Submit(request)] + [no, later], [no, later]);
    RunConcat(s, [Submit(request)] + [no, later] + [no, later], [no, later]);
    assert es + [no] == [Submit(request), no, later, no, later, no, later, no];
    RunConcat(s, es, [no]);
    RunOfOne(s4, no);
  }

  // ---------------------------------------------------------------- a healthy server

  function Served(n: nat): seq<Event> {
    seq(n, _ => BatchReply(true))
  }

  function RequestsOf(xs: seq<Item>): seq<string> {
    seq(|xs|, i requires 0 <= i < |xs| => xs[i].request)
  }

  /** A server that answers every fetch: the batch is delivered in order, and a queue that has filled up
      meanwhile has the timer armed. */
  lemma {:induction false} BatchIsServed(s: State)
    requires Valid(s) && s.batch != [] && !s.waiting
    ensures var t := Run(s, Served(|s.batch|));
      && t.batch == [] && !t.isProcessing
      && t.queue == s.queue && t.direct == s.direct && t.submitted == s.submitted
      && t.delivered == s.delivered + RequestsOf(s.batch)
      && (t.queue != [] ==> t.timer)
    decreases |s.batch|
  {
    var n := |s.batch|;
    var u := Next(s, BatchReply(true));
    NextKeepsValid(s, BatchReply(true));
    assert Served(n)[0] == BatchReply(true) && Served(n)[1..] == Served(n - 1);
    assert RequestsOf(s.batch) == [s.batch[0].request] + RequestsOf(s.batch[1..]);
    if n > 1 {
      BatchIsServed(u);
    } else {
      assert Run(u, Served(0)) == u;
    }
  }

  lemma {:induction false} RunConcat(s: State, a: seq<Event>, b: seq<Event>)
    ensures Run(s, a + b) == Run(Run(s, a), b)
    decreases |a|
  {
    if a == [] {
      assert a + b == b;
    } else {
      assert (a + b)[1..] == a[1..] + b;
      RunConcat(Next(s, a[0]), a[1..], b);
    }
  }

  /** A wait that elapses and a server that answers, up to the end of the current cycle. */
  function FinishCycle(s: State): seq<Event> {
    (if s.waiting then [BatchWaited] else []) + Served(|s.batch|)
  }

  /** The timer and the cycle it starts. */
  function NextCycle(s: State): seq<Event> {
    if s.queue == [] then [] else [TimerFires] + Served(|s.queue|)
  }

  lemma CycleIsFinished(s: State)
    requires Valid(s)
    ensures var t := Run(s, if s.batch == [] then [] else FinishCycle(s));
      && Valid(t) && t.batch == [] && !t.isProcessing
      && t.queue == s.queue && t.direct == s.direct
      && t.delivered == s.delivered + RequestsOf(s.batch)
  {
    if s.batch != [] {
      var served := Served(|s.batch|);
      if s.waiting {
        var u := Next(s, BatchWaited);
        NextKeepsValid(s, BatchWaited);
        BatchIsServed(u);
        assert Run(s, FinishCycle(s)) == Run(u, served) by {
          assert FinishCycle(s)[1..] == served;
        }
      } else {
        BatchIsServed(s);
        assert FinishCycle(s) == served;
      }
      RunKeepsValid(s, FinishCycle(s));
    }
  }

  lemma TimerDrains(s: State)
    requires Valid(s) && s.batch == []
    ensures var t := Run(s, NextCycle(s));
      && t.queue == [] && t.batch == [] && !t.isProcessing && t.direct == s.direct
      && t.delivered == s.delivered + RequestsOf(s.queue)
  {
    if s.queue != [] {
      var u := Next(s, TimerFires);
      NextKeepsValid(s, TimerFires);
      assert NextCycle(s)[1..] == Served(|s.queue|);
      BatchIsServed(u);
    }
  }

  /** From every reachable state, once the server answers, the rest of the cycle and one timer deliver everything
      that was queued, in order. */
  lemma HealthyServerDrains(s: State)
    requires Valid(s)
    ensures var t := Run(s, (if s.batch == [] then [] else FinishCycle(s)) + NextCycle(s));
      && t.queue == [] && t.batch == [] && !t.isProcessing && t.direct == s.direct
      && t.delivered == s.delivered + RequestsOf(s.batch) + RequestsOf(s.queue)
  {
    var a := if s.batch == [] then [] else FinishCycle(s);
    CycleIsFinished(s);
    TimerDrains(Run(s, a));
    RunConcat(s, a, NextCycle(s));
  }

  // ---------------------------------------------------------------- the module's variables

  /** The module variables of the store service, with the locals of its suspended calls. */
  class PushQueue {
    var pendingPushQueue: seq<Item>
    var isProcessingQueue: bool
    var queueRetryTimer: bool
    var items: seq<Item>
    var attempt: nat
    var waiting: bool
    var pushes: seq<Direct>
    ghost var submitted: seq<string>
    ghost var delivered: seq<string>

    ghost function Abstract(): State
      reads this
    {
      State(pendingPushQueue, isProcessingQueue, queueRetryTimer, items, attempt, waiting, pushes, submitted, delivered)
    }

    constructor ()
      ensures Abstract() == Idle
    {
      pendingPushQueue, isProcessingQueue, queueRetryTimer := [], false, false;
      items, attempt, waiting, pushes := [], 0, false, [];
      submitted, delivered := [], [];
    }

    /** _pushStoreToApi up to its first fetch. */
    method PushStoreToApi(request: string)
      modifies this
      ensures Abstract() == Next(old(Abstract()), Submit(request))
    {
      pushes := pushes + [Direct(request, 0, false)];
      submitted := submitted + [request];
    }

    /** An answer to a direct push: after the last failure the request is queued and processing kicked off. */
    method PushAnswered(i: nat, ok: bool)
      requires i < |pushes| && !pushes[i].waiting
      modifies this
      ensures Abstract() == Next(old(Abstract()), DirectReply(i, ok))
    {
      var d := pushes[i];
      if ok {
        pushes := pushes[..i] + pushes[i + 1..];
        delivered := delivered + [d.request];
      } else if d.attempt == DIRECT_RETRIES {
        pushes := pushes[..i] + pushes[i + 1..];
        pendingPushQueue := pendingPushQueue + [Item(d.request, QUEUED_RETRIES)];
        ProcessPushQueue();
      } else {
        pushes := pushes[i := d.(waiting := true)];
      }
    }

    method PushWaited(i: nat)
      requires i < |pushes| && pushes[i].waiting
      modifies this
      ensures Abstract() == Next(old(Abstract()), DirectWaited(i))
    {
      pushes := pushes[i := Direct(pushes[i].request, pushes[i].attempt + 1, false)];
    }

    /** _processPushQueue up to its first fetch. */
    method ProcessPushQueue()
      modifies this
      ensures Abstract() == Process(old(Abstract()))
    {
      if isProcessingQueue || pendingPushQueue == [] {
        return;
      }
      isProcessingQueue := true;
      items, attempt, waiting := pendingPushQueue, 0, false;
      pendingPushQueue := [];
    }

    /** An answer to the processing call, and what it does until it has to wait again or ends. */
    method ItemAnswered(ok: bool)
      requires items != [] && !waiting
      modifies this
      ensures Abstract() == Next(old(Abstract()), BatchReply(ok))
    {
      var item := items[0];
      if !ok && attempt < item.retries {
        waiting := true;
        return;
      }
      if ok {
        delivered := delivered + [item.request];
      } else {
        pendingPushQueue := pendingPushQueue + [item.(retries := if item.retries == 0 then 0 else item.retries - 1)];
      }
      items, attempt := items[1..], 0;
      if items == [] {
        isProcessingQueue := false;
        if |pendingPushQueue| > 0 {
          ScheduleQueueRetry();
        }
      }
    }

    method ItemWaited()
      requires items != [] && waiting
      modifies this
      ensures Abstract() == Next(old(Abstract()), BatchWaited)
    {
      waiting, attempt := false, attempt + 1;
    }

    /** _scheduleQueueRetry: an armed timer is replaced. */
    method ScheduleQueueRetry()
      modifies this`queueRetryTimer
      ensures queueRetryTimer
    {
      queueRetryTimer := true;
    }

    method TimerFired()
      requires queueRetryTimer
      modifies this
      ensures Abstract() == Next(old(Abstract()), TimerFires)
    {
      queueRetryTimer := false;
      ProcessPushQueue();
    }

    method WentOnline()
      modifies this
      ensures Abstract() == Next(old(Abstract()), GoesOnline)
    {
      ProcessPushQueue();
    }
  }
}
