/** stock_balances equals a baseline, which only pulls move, plus the ledger. */
module Projection {
  import opened Types
  import opened Sums
  import opened Outbox
  import opened Database
  import opened LedgerOps

  ghost function RowsOf(k: Key): (string, TxnRow) -> int {
    (id: string, r: TxnRow) => if r.key == k then r.delta else 0
  }

  /** The sum of the ledger deltas recorded under a key. */
  ghost function LedgerSum(txns: map<string, TxnRow>, k: Key): int {
    Weigh(txns, RowsOf(k))
  }

  /** The part of a balance that the ledger does not explain. */
  ghost function Baseline(s: Db, k: Key): int {
    Quantity(s.balances, k) - LedgerSum(s.txns, k)
  }

  lemma {:induction false} OpsShiftLedger(l: Ledger, ops: seq<Op>, k: Key)
    ensures LedgerSum(ApplyOps(l, ops), k) == LedgerSum(l, k) + ShiftOfAll(l, ops, k)
    decreases |ops|
  {
    if ops != [] {
      match ops[0] {
        case Put(id, row) => WeighSet(l, id, row, RowsOf(k));
        case Drop(id) =>
          if id in l {
            WeighRemove(l, id, RowsOf(k));
          } else {
            assert l - {id} == l;
          }
      }
      OpsShiftLedger(ApplyOp(l, ops[0]), ops[1..], k);
    }
  }

  lemma {:induction false} RowStatusesKeepLedger(txns: map<string, TxnRow>, us: seq<(string, Status)>, k: Key)
    ensures LedgerSum(SetRowStatuses(txns, us), k) == LedgerSum(txns, k)
    decreases |us|
  {
    if us != [] {
      var (id, status) := us[0];
      if id in txns {
        WeighSet(txns, id, txns[id].(sync := status), RowsOf(k));
        RowStatusesKeepLedger(txns[id := txns[id].(sync := status)], us[1..], k);
      } else {
        RowStatusesKeepLedger(txns, us[1..], k);
      }
    }
  }

  ghost predicate PullCovers(c: Command, k: Key) {
    c.Pull? && Pulled(c.rows, k).Some?
  }

  /** Where a command leaves the baseline: a pull of the key resets it, nothing else touches it. */
  ghost function NextBaseline(s: Db, c: Command, k: Key, base: int): int {
    if PullCovers(c, k) then Pulled(c.rows, k).value - LedgerSum(s.txns, k) else base
  }

  /** No command except a pull of the key moves its baseline, whether it succeeds or is refused. */
  lemma StepKeepsBaseline(s: Db, now: Time, c: Command, k: Key)
    ensures Baseline(Step(s, now, c), k) == NextBaseline(s, c, k, Baseline(s, k))
  {
    if Try(s, now, c).Ok? {
      if c.Pull? {
        PullSetsQuantities(s, now, c.rows, k);
      } else if c.UpdateRowStatuses? {
        RowStatusesKeepLedger(s.txns, c.rowUpdates, k);
      } else {
        StepFollows(s, now, c);
        PatchShifts(s.balances, s.txns, OpsOf(s, c), k);
        OpsShiftLedger(s.txns, OpsOf(s, c), k);
      }
    }
  }

  /** The baseline a run ends with. */
  ghost function BaselineAfter(s: Db, cs: seq<Timed>, k: Key, base: int): int
    decreases |cs|
  {
    if cs == [] then base
    else BaselineAfter(Step(s, cs[0].now, cs[0].command), cs[1..], k, NextBaseline(s, cs[0].command, k, base))
  }

  /** After any run of commands each balance is its baseline plus its ledger sum. */
  lemma {:induction false} ProjectionEqualsLedger(s: Db, cs: seq<Timed>, k: Key)
    ensures Quantity(Run(s, cs).balances, k)
         == BaselineAfter(s, cs, k, Baseline(s, k)) + LedgerSum(Run(s, cs).txns, k)
    decreases |cs|
  {
    if cs != [] {
      StepKeepsBaseline(s, cs[0].now, cs[0].command, k);
      ProjectionEqualsLedger(Step(s, cs[0].now, cs[0].command), cs[1..], k);
    }
  }

  /** Without a pull of the key, balance and ledger move together: the run's net effect is the change
      of the ledger alone. */
  lemma {:induction false} BalanceMovesWithLedger(s: Db, cs: seq<Timed>, k: Key)
    requires forall t <- cs :: !PullCovers(t.command, k)
    ensures Quantity(Run(s, cs).balances, k) - Quantity(s.balances, k)
         == LedgerSum(Run(s, cs).txns, k) - LedgerSum(s.txns, k)
    decreases |cs|
  {
    if cs != [] {
      StepKeepsBaseline(s, cs[0].now, cs[0].command, k);
      BalanceMovesWithLedger(Step(s, cs[0].now, cs[0].command), cs[1..], k);
    }
  }
}
