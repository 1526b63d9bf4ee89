/** daily_stock_snapshot as an index of past balances. */
module Snapshots {
  import opened Types
  import opened Database

  /** `e` is the newest day with a snapshot of the key not after day `d`. */
  ghost predicate IsLatest(snapshots: map<SnapKey, int>, k: Key, d: int, e: int) {
    && e <= d && SnapKey(k, e) in snapshots
    && forall x | e < x <= d :: SnapKey(k, x) !in snapshots
  }

  /** No snapshot of the key is newer than `today`, and the newest one is the live balance. */
  ghost predicate IsCurrent(s: Db, k: Key, today: int) {
    && (forall x | SnapKey(k, x) in s.snapshots :: x <= today && k in s.balances)
    && (forall e | IsLatest(s.snapshots, k, today, e) :: s.snapshots[SnapKey(k, e)] == s.balances[k])
  }

  /** The two ways a step touches a key: it writes the balance and stamps it today, or leaves both, at most
      adding today's snapshot of the balance where there is none. */
  ghost predicate StampsToday(s: Db, t: Db, now: Time, k: Key) {
    var today := SnapKey(k, Day(now));
    && (forall x | x != Day(now) :: SnapKey(k, x) in t.snapshots <==> SnapKey(k, x) in s.snapshots)
    && (forall x | x != Day(now) && SnapKey(k, x) in s.snapshots ::
          t.snapshots[SnapKey(k, x)] == s.snapshots[SnapKey(k, x)])
    && (|| (k in t.balances && today in t.snapshots && t.snapshots[today] == t.balances[k])
        || ((k in t.balances <==> k in s.balances) && (k in s.balances ==> t.balances[k] == s.balances[k])
            && (today in t.snapshots <==> today in s.snapshots)
            && (today in s.snapshots ==> t.snapshots[today] == s.snapshots[today])))
  }

  lemma StampKeepsCurrent(s: Db, t: Db, now: Time, k: Key, today: int)
    requires StampsToday(s, t, now, k) && IsCurrent(s, k, today) && today <= Day(now)
    ensures IsCurrent(t, k, Day(now))
  {
    forall e | IsLatest(t.snapshots, k, Day(now), e)
      ensures t.snapshots[SnapKey(k, e)] == t.balances[k]
    {
      if e != Day(now) {
        assert SnapKey(k, Day(now)) !in t.snapshots;
        assert e <= today;
        forall x | e < x <= today
          ensures SnapKey(k, x) !in s.snapshots
        {
          assert SnapKey(k, x) !in t.snapshots;
        }
        assert IsLatest(s.snapshots, k, today, e);
      } else if !(k in t.balances && t.snapshots[SnapKey(k, e)] == t.balances[k]) {
        assert SnapKey(k, e) in s.snapshots;
        assert IsLatest(s.snapshots, k, today, e);
      }
    }
  }

  // ---------------------------------------------------------------- commands

  lemma MovementStamps(s: Db, now: Time, t: Db, id: string, row: TxnRow, k: Key)
    requires AddsMovement(s, now, t, id, row)
    ensures StampsToday(s, t, now, k)
  {
  }

  lemma MoveStamps(s: Db, now: Time, c: Command, k: Key)
    requires c.MoveBucket? && TryMove(s, now, c).Ok?
    ensures StampsToday(s, TryMove(s, now, c).db, now, k)
  {
  }

  lemma EditStamps(s: Db, now: Time, c: Command, k: Key)
    requires c.Edit? && TryEdit(s, now, c).Ok?
    ensures StampsToday(s, TryEdit(s, now, c).db, now, k)
  {
  }

  lemma DeleteStamps(s: Db, now: Time, c: Command, k: Key)
    requires c.Delete? && TryDelete(s, now, c).Ok?
    ensures StampsToday(s, TryDelete(s, now, c).db, now, k)
  {
  }

  lemma {:induction false} PullStamps(s: Db, now: Time, rows: seq<(Key, int)>, k: Key)
    ensures StampsToday(s, PullBalances(s, now, rows), now, k)
    decreases |rows|
  {
    if rows != [] {
      PullStamps(SetBalance(s, now, rows[0].0, rows[0].1), now, rows[1..], k);
    }
  }

  lemma StepKeepsCurrent(s: Db, now: Time, c: Command, k: Key, today: int)
    requires IsCurrent(s, k, today) && today <= Day(now)
    ensures IsCurrent(Step(s, now, c), k, Day(now))
    ensures forall x | x < Day(now) ::
      && (SnapKey(k, x) in Step(s, now, c).snapshots <==> SnapKey(k, x) in s.snapshots)
      && (SnapKey(k, x) in s.snapshots ==> Step(s, now, c).snapshots[SnapKey(k, x)] == s.snapshots[SnapKey(k, x)])
  {
    StepStamps(s, now, c, k, today);
    StampKeepsCurrent(s, Step(s, now, c), now, k, today);
  }

  lemma SameStamps(s: Db, t: Db, now: Time, k: Key)
    requires t.balances == s.balances && t.snapshots == s.snapshots
    ensures StampsToday(s, t, now, k)
  {
  }

  lemma SingleStamps(s: Db, now: Time, c: Command, k: Key)
    requires IsSingleMovement(c) && Try(s, now, c).Ok?
    ensures StampsToday(s, Step(s, now, c), now, k)
  {
    var row := SingleMovement(s, now, c);
    if row.Some? {
      MovementStamps(s, now, Step(s, now, c), c.id, row.value, k);
    } else {
      SameStamps(s, Step(s, now, c), now, k);
    }
  }

  /** Commands that write no balance and no snapshot. */
  predicate LeavesStock(c: Command) {
    c.CreateTransfer? || c.MarkException? || c.SaveProduct? || c.Fetch? || c.UpdateStatuses? || c.UpdateRowStatuses?
    || c.Cleanup?
  }

  lemma OtherStamps(s: Db, now: Time, c: Command)
    requires LeavesStock(c)
    ensures Step(s, now, c).balances == s.balances && Step(s, now, c).snapshots == s.snapshots
  {
  }

  /** Every command, the startup backfill included. */
  lemma StepStamps(s: Db, now: Time, c: Command, k: Key, today: int)
    requires IsCurrent(s, k, today) && today <= Day(now)
    ensures StampsToday(s, Step(s, now, c), now, k)
  {
    if !Try(s, now, c).Ok? {
      SameStamps(s, Step(s, now, c), now, k);
    } else if IsSingleMovement(c) {
      SingleStamps(s, now, c, k);
    } else if LeavesStock(c) {
      OtherStamps(s, now, c);
      SameStamps(s, Step(s, now, c), now, k);
    } else if c.MoveBucket? {
      MoveStamps(s, now, c, k);
    } else if c.Edit? {
      EditStamps(s, now, c, k);
    } else if c.Delete? {
      DeleteStamps(s, now, c, k);
    } else if c.Pull? {
      PullStamps(s, now, c.rows, k);
    } else {
      BackfillStamps(s, now, k, today);
    }
  }

  lemma BackfillStamps(s: Db, now: Time, k: Key, today: int)
    requires IsCurrent(s, k, today) && today <= Day(now)
    ensures StampsToday(s, Backfill(s, now), now, k)
  {
    var t := Backfill(s, now);
    assert forall x | x != Day(now) :: SnapKey(k, x) in t.snapshots ==> SnapKey(k, x) in s.snapshots;
  }

  // ---------------------------------------------------------------- runs

  /** The clock does not run backwards past a day, starting at `today`. */
  predicate DaysAscend(cs: seq<Timed>, today: int)
    decreases |cs|
  {
    cs == [] || (today <= Day(cs[0].now) && DaysAscend(cs[1..], Day(cs[0].now)))
  }

  /** The state after the last command on or before day `d`. */
  ghost function EndOfDay(s: Db, cs: seq<Timed>, d: int): Db
    decreases |cs|
  {
    if cs == [] || Day(cs[0].now) > d then s else EndOfDay(Step(s, cs[0].now, cs[0].command), cs[1..], d)
  }

  /** Commands on later days leave a day's snapshots alone. */
  lemma {:induction false} LaterDaysKeepSnapshots(s: Db, cs: seq<Timed>, k: Key, today: int, d: int)
    requires IsCurrent(s, k, today) && DaysAscend(cs, today)
    requires cs == [] || Day(cs[0].now) > d
    ensures forall x | x <= d ::
      && (SnapKey(k, x) in Run(s, cs).snapshots <==> SnapKey(k, x) in s.snapshots)
      && (SnapKey(k, x) in s.snapshots ==> Run(s, cs).snapshots[SnapKey(k, x)] == s.snapshots[SnapKey(k, x)])
    decreases |cs|
  {
    if cs != [] {
      StepKeepsCurrent(s, cs[0].now, cs[0].command, k, today);
      LaterDaysKeepSnapshots(Step(s, cs[0].now, cs[0].command), cs[1..], k, Day(cs[0].now), d);
    }
  }

  /** For every day since the first snapshot of a key, the newest snapshot not after that day is the
      balance the day ended with; for the last day that is the live balance. */
  lemma {:induction false} SnapshotsAreHistory(s: Db, cs: seq<Timed>, k: Key, today: int, d: int, e: int)
    requires IsCurrent(s, k, today) && DaysAscend(cs, today) && today <= d
    requires IsLatest(Run(s, cs).snapshots, k, d, e)
    ensures k in EndOfDay(s, cs, d).balances
    ensures Run(s, cs).snapshots[SnapKey(k, e)] == EndOfDay(s, cs, d).balances[k]
    decreases |cs|
  {
    if cs == [] || Day(cs[0].now) > d {
      LaterDaysKeepSnapshots(s, cs, k, today, d);
      assert forall x | x <= d :: SnapKey(k, x) in Run(s, cs).snapshots <==> SnapKey(k, x) in s.snapshots;
      assert e <= today;
      assert IsLatest(s.snapshots, k, today, e);
    } else {
      StepKeepsCurrent(s, cs[0].now, cs[0].command, k, today);
      SnapshotsAreHistory(Step(s, cs[0].now, cs[0].command), cs[1..], k, Day(cs[0].now), d, e);
    }
  }

  // ---------------------------------------------------------------- from a startup on

  /** After a startup every balance has a snapshot for today: the one it had, or else the balance itself. No other
      snapshot and nothing else changes. */
  lemma StartupFillsToday(s: Db, now: Time)
    ensures var t := Step(s, now, Startup);
      && t == s.(snapshots := t.snapshots)
      && (forall k <- s.balances.Keys :: SnapKey(k, Day(now)) in t.snapshots
            && t.snapshots[SnapKey(k, Day(now))]
               == if SnapKey(k, Day(now)) in s.snapshots then s.snapshots[SnapKey(k, Day(now))] else s.balances[k])
      && (forall x <- s.snapshots.Keys :: x in t.snapshots && t.snapshots[x] == s.snapshots[x])
      && (forall x <- t.snapshots.Keys :: x in s.snapshots || (x.day == Day(now) && x.key in s.balances))
  {
  }

  /** A day is 86400 seconds of UTC, counted from the epoch. */
  lemma DayIsUtcDate(now: Time)
    ensures Day(now) * 86_400 <= now < (Day(now) + 1) * 86_400
  {
  }

  /** A key with a balance has a snapshot by today. */
  ghost predicate IsIndexed(s: Db, k: Key, today: int) {
    k in s.balances ==> exists x :: x <= today && SnapKey(k, x) in s.snapshots
  }

  lemma StampKeepsIndexed(s: Db, t: Db, now: Time, k: Key, today: int)
    requires StampsToday(s, t, now, k) && IsIndexed(s, k, today) && today <= Day(now)
    ensures IsIndexed(t, k, Day(now))
  {
    if k in t.balances && SnapKey(k, Day(now)) !in t.snapshots {
      var x :| x <= today && SnapKey(k, x) in s.snapshots;
      assert SnapKey(k, x) in t.snapshots;
    }
  }

  /** Below a day with a snapshot there is always a newest one. */
  lemma {:induction false} LatestExists(snapshots: map<SnapKey, int>, k: Key, d: int, x: int) returns (e: int)
    requires x <= d && SnapKey(k, x) in snapshots
    ensures IsLatest(snapshots, k, d, e)
    decreases d - x
  {
    if y :| x < y <= d && SnapKey(k, y) in snapshots {
      e := LatestExists(snapshots, k, d, y);
    } else {
      e := x;
    }
  }

  /** A balance a key has at the end of a day is found in the index on that day. */
  lemma {:induction false} IndexedOnEveryDay(s: Db, cs: seq<Timed>, k: Key, today: int, d: int)
    requires IsCurrent(s, k, today) && IsIndexed(s, k, today) && DaysAscend(cs, today) && today <= d
    requires k in EndOfDay(s, cs, d).balances
    ensures exists e :: IsLatest(Run(s, cs).snapshots, k, d, e)
    decreases |cs|
  {
    if cs == [] || Day(cs[0].now) > d {
      LaterDaysKeepSnapshots(s, cs, k, today, d);
      var x :| x <= today && SnapKey(k, x) in s.snapshots;
      assert SnapKey(k, x) in Run(s, cs).snapshots;
      var e := LatestExists(Run(s, cs).snapshots, k, d, x);
    } else {
      var t, day := Step(s, cs[0].now, cs[0].command), Day(cs[0].now);
      StepKeepsCurrent(s, cs[0].now, cs[0].command, k, today);
      StepKeepsIndexed(s, cs[0].now, cs[0].command, k, today);
      IndexedOnEveryDay(t, cs[1..], k, day, d);
      assert Run(s, cs) == Run(t, cs[1..]);
    }
  }

  lemma StepKeepsIndexed(s: Db, now: Time, c: Command, k: Key, today: int)
    requires IsCurrent(s, k, today) && IsIndexed(s, k, today) && today <= Day(now)
    ensures IsIndexed(Step(s, now, c), k, Day(now))
  {
    if Try(s, now, c).Ok? {
      StepStamps(s, now, c, k, today);
      StampKeepsIndexed(s, Step(s, now, c), now, k, today);
    }
  }

  /** From a startup on, every balance at the end of every later day can be looked up, and is what is found. */
  lemma StartupIndexesEveryDay(s: Db, now: Time, cs: seq<Timed>, k: Key, today: int, d: int)
    requires IsCurrent(s, k, today) && today <= Day(now) <= d && DaysAscend(cs, Day(now))
    requires var t := Step(s, now, Startup); k in EndOfDay(t, cs, d).balances
    ensures var t := Step(s, now, Startup);
      exists e :: IsLatest(Run(t, cs).snapshots, k, d, e)
                  && Run(t, cs).snapshots[SnapKey(k, e)] == EndOfDay(t, cs, d).balances[k]
  {
    var t := Step(s, now, Startup);
    StartupFillsToday(s, now);
    StepKeepsCurrent(s, now, Startup, k, today);
    IndexedOnEveryDay(t, cs, k, Day(now), d);
    var e :| IsLatest(Run(t, cs).snapshots, k, d, e);
    SnapshotsAreHistory(t, cs, k, Day(now), d, e);
  }
}
