/** Recording a row, editing it any number of times and deleting it, against never recording it. */
module Undo {
  import opened Types
  import opened Outbox
  import opened Database
  import opened LedgerOps
  import opened Projection

  /** The command does not create, edit or delete the row. */
  predicate Ignores(c: Command, id: string) {
    match c
    case MoveBucket(outId, inId, _, _, _, _, _, _) => outId != id && inId != id
    case Edit(i, _, _, _) => i != id
    case Delete(i) => i != id
    case _ => IsSingleMovement(c) ==> c.id != id
  }

  predicate Targets(c: Command, id: string) {
    (c.Edit? || c.Delete?) && c.id == id
  }

  function Contribution(s: Db, id: string): int {
    if id in s.txns then s.txns[id].delta else 0
  }

  /** `b` is `a` without the row `id` of key `k`; at the balance `j` they differ by what the row weighs,
      short of `lag` units if `j` is its key. */
  ghost predicate Twin(a: Db, b: Db, id: string, k: Key, lag: int, j: Key) {
    && b.txns == a.txns - {id}
    && (id in a.txns ==> a.txns[id].key == k)
    && a.transfers == b.transfers
    && Quantity(a.balances, j) == Quantity(b.balances, j) + if j == k then Contribution(a, id) - lag else 0
  }

  lemma {:induction false} RowStatusesTwin(a: map<string, TxnRow>, us: seq<(string, Status)>, id: string)
    ensures SetRowStatuses(a - {id}, us) == SetRowStatuses(a, us) - {id}
    ensures SetRowStatuses(a, us).Keys == a.Keys
    ensures id in a ==> SetRowStatuses(a, us)[id].key == a[id].key
                        && SetRowStatuses(a, us)[id].delta == a[id].delta
    decreases |us|
  {
    if us != [] {
      var (i, status) := us[0];
      var a1 := if i in a then a[i := a[i].(sync := status)] else a;
      RowStatusesTwin(a1, us[1..], id);
      assert a1 - {id} == if i in a - {id} then (a - {id})[i := (a - {id})[i].(sync := status)] else a - {id};
    }
  }

  lemma PullTwin(a: Db, b: Db, now: Time, rows: seq<(Key, int)>, id: string, k: Key, lag: int, j: Key)
    requires Twin(a, b, id, k, lag, j)
    ensures Twin(PullBalances(a, now, rows), PullBalances(b, now, rows), id, k,
                 if Pulled(rows, k).Some? then Contribution(a, id) else lag, j)
  {
    PullSetsQuantities(a, now, rows, j);
    PullSetsQuantities(b, now, rows, j);
  }

  /** Operations on other rows do the same with and without the row. */
  lemma {:induction false} OpsCommute(l: Ledger, ops: seq<Op>, id: string, j: Key)
    requires forall op <- ops :: op.id != id
    ensures ApplyOps(l - {id}, ops) == ApplyOps(l, ops) - {id}
    ensures ShiftOfAll(l - {id}, ops, j) == ShiftOfAll(l, ops, j)
    ensures id in ApplyOps(l, ops) <==> id in l
    ensures id in l ==> ApplyOps(l, ops)[id] == l[id]
    decreases |ops|
  {
    if ops != [] {
      assert ApplyOp(l - {id}, ops[0]) == ApplyOp(l, ops[0]) - {id};
      OpsCommute(ApplyOp(l, ops[0]), ops[1..], id, j);
    }
  }

  /** Both sides see the same operations. */
  lemma SameOps(a: Db, b: Db, c: Command, id: string)
    requires Ignores(c, id) && b.txns == a.txns - {id} && a.transfers == b.transfers
    ensures OpsOf(a, c) == OpsOf(b, c)
    ensures forall op <- OpsOf(a, c) :: op.id != id
  {
  }

  lemma OpsTwin(a: Db, b: Db, a': Db, b': Db, ops: seq<Op>, id: string, k: Key, lag: int, j: Key)
    requires Twin(a, b, id, k, lag, j) && (forall op <- ops :: op.id != id)
    requires Follows(a, a', ops) && Follows(b, b', ops) && a'.transfers == b'.transfers
    ensures Twin(a', b', id, k, lag, j)
  {
    OpsCommute(a.txns, ops, id, j);
    PatchShifts(a.balances, a.txns, ops, j);
    PatchShifts(b.balances, b.txns, ops, j);
  }

  /** Sync, product and housekeeping commands, which leave ledger, balances and transfers alone. */
  predicate IsBackground(c: Command) {
    c.UpdateStatuses? || c.SaveProduct? || c.Fetch? || c.Cleanup? || c.Startup?
  }

  lemma BackgroundStep(s: Db, now: Time, c: Command)
    requires IsBackground(c)
    ensures var t := Step(s, now, c); t.txns == s.txns && t.balances == s.balances && t.transfers == s.transfers
  {
  }

  /** A command that ignores the row keeps the two runs in step; a pull of the key makes them equal
      there, so that from then on they differ by what the row weighed at the pull. */
  lemma OtherStepTwin(a: Db, b: Db, now: Time, c: Command, id: string, k: Key, lag: int, j: Key)
    requires Ignores(c, id) && Twin(a, b, id, k, lag, j)
    requires IsBackground(c) || Try(a, now, c).Ok? == Try(b, now, c).Ok?
    ensures Twin(Step(a, now, c), Step(b, now, c), id, k, if PullCovers(c, k) then Contribution(a, id) else lag, j)
  {
    if IsBackground(c) {
      BackgroundStep(a, now, c);
      BackgroundStep(b, now, c);
    } else if Try(a, now, c).Ok? {
      StepTransfers(a, now, c);
      StepTransfers(b, now, c);
      if c.Pull? {
        PullTwin(a, b, now, c.rows, id, k, lag, j);
      } else if c.UpdateRowStatuses? {
        RowStatusesTwin(a.txns, c.rowUpdates, id);
      } else {
        StepFollows(a, now, c);
        StepFollows(b, now, c);
        SameOps(a, b, c, id);
        OpsTwin(a, b, Step(a, now, c), Step(b, now, c), OpsOf(a, c), id, k, lag, j);
      }
    }
  }

  /** Editing or deleting the row keeps the run in step with the one that never had it. */
  lemma OwnStepTwin(a: Db, b: Db, now: Time, c: Command, id: string, k: Key, lag: int, j: Key)
    requires Targets(c, id) && Twin(a, b, id, k, lag, j)
    ensures Twin(Step(a, now, c), b, id, k, lag, j)
  {
    if Try(a, now, c).Ok? {
      StepFollows(a, now, c);
      PatchShifts(a.balances, a.txns, OpsOf(a, c), j);
      StepTransfers(a, now, c);
      if id in a.txns {
        OneOp(a.balances, a.txns, OpsOf(a, c)[0]);
      }
    }
  }

  // ---------------------------------------------------------------- runs

  /** The run without the commands that edit or delete the row. */
  function Others(cs: seq<Timed>, id: string): seq<Timed>
    decreases |cs|
  {
    if cs == [] then []
    else if Targets(cs[0].command, id) then Others(cs[1..], id)
    else [cs[0]] + Others(cs[1..], id)
  }

  /** Side by side, every stock or transfer command that ignores the row is accepted in both runs or refused
      in both. Sync work may differ: a status write for the row's event has nothing to write to in the other run. */
  ghost predicate Agree(a: Db, b: Db, cs: seq<Timed>, id: string)
    decreases |cs|
  {
    cs == [] ||
    var c, now := cs[0].command, cs[0].now;
    if Targets(c, id) then Agree(Step(a, now, c), b, cs[1..], id)
    else
      && Ignores(c, id) && (IsBackground(c) || Try(a, now, c).Ok? == Try(b, now, c).Ok?)
      && Agree(Step(a, now, c), Step(b, now, c), cs[1..], id)
  }

  /** What the row weighed at the last pull of its key, `lag` if there was none. */
  ghost function WeightAtLastPull(a: Db, cs: seq<Timed>, id: string, k: Key, lag: int): int
    decreases |cs|
  {
    if cs == [] then lag
    else
      var c := cs[0].command;
      WeightAtLastPull(Step(a, cs[0].now, c), cs[1..], id, k, if PullCovers(c, k) then Contribution(a, id) else lag)
  }

  lemma {:induction false} RunsStayTwins(a: Db, b: Db, cs: seq<Timed>, id: string, k: Key, lag: int, j: Key)
    requires Twin(a, b, id, k, lag, j) && Agree(a, b, cs, id)
    ensures Twin(Run(a, cs), Run(b, Others(cs, id)), id, k, WeightAtLastPull(a, cs, id, k, lag), j)
    decreases |cs|
  {
    if cs != [] {
      var c, now := cs[0].command, cs[0].now;
      if Targets(c, id) {
        OwnStepTwin(a, b, now, c, id, k, lag, j);
        RunsStayTwins(Step(a, now, c), b, cs[1..], id, k, lag, j);
      } else {
        OtherStepTwin(a, b, now, c, id, k, lag, j);
        RunsStayTwins(Step(a, now, c), Step(b, now, c), cs[1..], id, k,
                      if PullCovers(c, k) then Contribution(a, id) else lag, j);
        assert Others(cs, id)[0] == cs[0] && Others(cs, id)[1..] == Others(cs[1..], id);
      }
    }
  }

  lemma FirstStepTwin(s: Db, now: Time, c: Command, k: Key, j: Key)
    requires (c.Receive? || c.Sell? || c.ReturnStock? || c.Adjust?) && Try(s, now, c).Ok?
    requires c.id in Step(s, now, c).txns ==> k == Step(s, now, c).txns[c.id].key
    ensures Twin(Step(s, now, c), s, c.id, k, 0, j)
  {
    var row := SingleMovement(s, now, c);
    ShopMovement(s, now, c);
    assert s.txns[c.id := row.value] - {c.id} == s.txns;
  }

  lemma DeletedRowAt(s: Db, now: Time, c: Command, cs: seq<Timed>, k: Key, j: Key)
    requires (c.Receive? || c.Sell? || c.ReturnStock? || c.Adjust?) && Try(s, now, c).Ok?
    requires Agree(Step(s, now, c), s, cs, c.id)
    requires c.id !in Run(Step(s, now, c), cs).txns
    requires c.id in Step(s, now, c).txns ==> k == Step(s, now, c).txns[c.id].key
    ensures Run(Step(s, now, c), cs).txns == Run(s, Others(cs, c.id)).txns
    ensures Quantity(Run(Step(s, now, c), cs).balances, j) == Quantity(Run(s, Others(cs, c.id)).balances, j)
            - if j == k then WeightAtLastPull(Step(s, now, c), cs, c.id, k, 0) else 0
  {
    FirstStepTwin(s, now, c, k, j);
    var a := Step(s, now, c);
    RunsStayTwins(a, s, cs, c.id, k, 0, j);
    assert Run(a, cs).txns - {c.id} == Run(a, cs).txns;
  }

  /** Once a recorded row is deleted, the ledger is the one of the run that never had it, and so is every
      balance, except that its own key is short by what the row weighed when that key was last pulled. */
  lemma DeletedRowLeavesNoTrace(s: Db, now: Time, c: Command, cs: seq<Timed>, k: Key)
    requires (c.Receive? || c.Sell? || c.ReturnStock? || c.Adjust?) && Try(s, now, c).Ok?
    requires Agree(Step(s, now, c), s, cs, c.id)
    requires c.id !in Run(Step(s, now, c), cs).txns
    requires c.id in Step(s, now, c).txns ==> k == Step(s, now, c).txns[c.id].key
    ensures Run(Step(s, now, c), cs).txns == Run(s, Others(cs, c.id)).txns
    ensures (forall j :: Quantity(Run(Step(s, now, c), cs).balances, j)
                      == Quantity(Run(s, Others(cs, c.id)).balances, j))
            <==> WeightAtLastPull(Step(s, now, c), cs, c.id, k, 0) == 0
  {
    var a, b := Run(Step(s, now, c), cs), Run(s, Others(cs, c.id));
    DeletedRowAt(s, now, c, cs, k, k);
    forall j: Key | j != k
      ensures Quantity(a.balances, j) == Quantity(b.balances, j)
    {
      DeletedRowAt(s, now, c, cs, k, j);
    }
  }

  lemma {:induction false} NoPullNoWeight(a: Db, cs: seq<Timed>, id: string, k: Key)
    requires forall t <- cs :: !PullCovers(t.command, k)
    ensures WeightAtLastPull(a, cs, id, k, 0) == 0
    decreases |cs|
  {
    if cs != [] {
      NoPullNoWeight(Step(a, cs[0].now, cs[0].command), cs[1..], id, k);
    }
  }

  /** Without a pull of its key, a deleted row leaves every balance as if it had never been recorded. */
  lemma UnpulledRowLeavesNoTrace(s: Db, now: Time, c: Command, cs: seq<Timed>, k: Key, j: Key)
    requires (c.Receive? || c.Sell? || c.ReturnStock? || c.Adjust?) && Try(s, now, c).Ok?
    requires Agree(Step(s, now, c), s, cs, c.id)
    requires c.id !in Run(Step(s, now, c), cs).txns
    requires c.id in Step(s, now, c).txns ==> k == Step(s, now, c).txns[c.id].key
    requires forall t <- cs :: !PullCovers(t.command, k)
    ensures Quantity(Run(Step(s, now, c), cs).balances, j) == Quantity(Run(s, Others(cs, c.id)).balances, j)
  {
    NoPullNoWeight(Step(s, now, c), cs, c.id, k);
    DeletedRowAt(s, now, c, cs, k, j);
  }

  lemma RunOfTwo(s: Db, now: Time, x: Command, y: Command)
    ensures Run(s, [Timed(now, x), Timed(now, y)]) == Step(Step(s, now, x), now, y)
  {
    var cs := [Timed(now, x), Timed(now, y)];
    assert cs[1..] == [Timed(now, y)] && cs[1..][1..] == [];
    assert Run(Step(s, now, x), cs[1..]) == Run(Step(Step(s, now, x), now, y), []);
  }

  lemma WeightOfTwo(a: Db, now: Time, k: Key, v: int, id: string)
    ensures WeightAtLastPull(a, [Timed(now, Pull([(k, v)])), Timed(now, Delete(id))], id, k, 0) == Contribution(a, id)
  {
    var pull, delete := Timed(now, Pull([(k, v)])), Timed(now, Delete(id));
    assert [pull, delete][1..] == [delete] && [delete][1..] == [];
    assert [(k, v)][1..] == [] && PullCovers(pull.command, k) && !PullCovers(delete.command, k);
    var b := Step(a, now, pull.command);
    assert WeightAtLastPull(b, [delete], id, k, Contribution(a, id)) == Contribution(a, id);
  }

  lemma OthersOfTwo(now: Time, x: Command, id: string)
    requires !Targets(x, id)
    ensures Others([Timed(now, x), Timed(now, Delete(id))], id) == [Timed(now, x)]
  {
    var cs := [Timed(now, x), Timed(now, Delete(id))];
    assert cs[1..] == [Timed(now, Delete(id))] && cs[1..][1..] == [];
    assert Others(cs[1..], id) == [];
  }

  /** A receipt whose key is pulled to `v` before it is deleted: its balance ends its quantity below the pulled
      value, which the run without the receipt keeps. */
  lemma PulledRowLeavesItsWeight(s: Db, now: Time, c: Command, v: int)
    requires c.Receive? && Try(s, now, c).Ok?
    ensures var k := Key(c.store, c.product, Available);
      var cs := [Timed(now, Pull([(k, v)])), Timed(now, Delete(c.id))];
      && c.quantity > 0
      && WeightAtLastPull(Step(s, now, c), cs, c.id, k, 0) == c.quantity
      && Quantity(Run(Step(s, now, c), cs).balances, k) == v - c.quantity
      && Quantity(Run(s, Others(cs, c.id)).balances, k) == v
  {
    var k := Key(c.store, c.product, Available);
    var pull, delete := Pull([(k, v)]), Delete(c.id);
    var a := Step(s, now, c);
    ReceiptRow(s, now, c);
    WeightOfTwo(a, now, k, v, c.id);
    PulledThenDeleted(a, now, k, v, c.id);
    OthersOfTwo(now, pull, c.id);
    PullOne(s, now, k, v);
    assert Run(s, [Timed(now, pull)]) == Step(s, now, pull) by {
      assert [Timed(now, pull)][1..] == [];
    }
  }

  lemma PulledThenDeleted(a: Db, now: Time, k: Key, v: int, id: string)
    requires id in a.txns && a.txns[id].sync == Pending && a.txns[id].key == k
    ensures Quantity(Run(a, [Timed(now, Pull([(k, v)])), Timed(now, Delete(id))]).balances, k) == v - a.txns[id].delta
  {
    PullOne(a, now, k, v);
    DeleteUnsynced(Step(a, now, Pull([(k, v)])), now, id);
    RunOfTwo(a, now, Pull([(k, v)]), Delete(id));
  }

  lemma ReceiptRow(s: Db, now: Time, c: Command)
    requires c.Receive? && Try(s, now, c).Ok?
    ensures c.quantity > 0
    ensures var t := Step(s, now, c);
      && c.id in t.txns && t.txns[c.id].delta == c.quantity && t.txns[c.id].sync == Pending
      && t.txns[c.id].key == Key(c.store, c.product, Available)
  {
    assert Try(s, now, c) == TryReceive(s, now, c);
  }

  lemma PullOne(s: Db, now: Time, k: Key, v: int)
    ensures var t := Step(s, now, Pull([(k, v)])); t.txns == s.txns && Quantity(t.balances, k) == v
  {
    var rows := [(k, v)];
    assert rows[1..] == [];
    PullSetsQuantities(s, now, rows, k);
    assert Try(s, now, Pull(rows)) == Ok(PullBalances(s, now, rows));
  }

  lemma DeleteUnsynced(s: Db, now: Time, id: string)
    requires id in s.txns && s.txns[id].sync == Pending
    ensures var k := s.txns[id].key;
      Quantity(Step(s, now, Delete(id)).balances, k) == Quantity(s.balances, k) - s.txns[id].delta
  {
    assert Try(s, now, Delete(id)) == TryDelete(s, now, Delete(id));
  }
}
