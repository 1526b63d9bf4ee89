/** Strict mode: no guarded command drives a balance below zero. */
module StrictMode {
  import opened Types
  import opened Database
  import opened LedgerOps
  import opened Transfers

  /** The check the code leaves out of edits and deletes: they take back no more than there is. */
  predicate KeepsStock(s: Db, c: Command) {
    match c
    case Edit(id, change, _, _) =>
      id in s.txns ==> s.txns[id].delta - change <= Quantity(s.balances, s.txns[id].key)
    case Delete(id) => id in s.txns ==> s.txns[id].delta <= Quantity(s.balances, s.txns[id].key)
    case _ => true
  }

  /** Edits and deletes keep to the check, and pulled snapshots hold no negative balance. */
  predicate IsStrict(s: Db, c: Command) {
    KeepsStock(s, c) && (c.Pull? ==> forall r <- c.rows :: r.1 >= 0)
  }

  ghost predicate PositiveTransfers(s: Db) {
    forall id <- s.transfers.Keys :: s.transfers[id].quantity > 0
  }

  /** A single movement either adds stock or takes no more than there is. */
  lemma GuardedMovement(s: Db, now: Time, c: Command)
    requires IsSingleMovement(c) && Try(s, now, c).Ok? && PositiveTransfers(s)
    ensures MovementOf(s, c).Some? ==>
      var row := MovementOf(s, c).value; row.delta >= 0 || Quantity(s.balances, row.key) + row.delta >= 0
  {
    match c
    case Receive(_, _, _, _, _, _) => assert TryReceive(s, now, c).Ok?;
    case Sell(_, _, _, _, _) => assert TrySell(s, now, c).Ok?;
    case ReturnStock(_, _, _, _, _, _, _, _) => assert TryReturn(s, now, c).Ok?;
    case Adjust(_, _, _, _, _, _) => assert TryAdjust(s, now, c).Ok?;
    case Dispatch(_, _) => assert TryDispatch(s, now, c).Ok?;
    case ReceiveTransfer(_, _) => assert TryReceiveTransfer(s, now, c).Ok?;
    case CancelTransfer(_, _) => assert TryCancelTransfer(s, now, c).Ok?;
  }

  lemma MoveKeepsNonNegative(s: Db, now: Time, c: Command, k: Key)
    requires c.MoveBucket? && TryMove(s, now, c).Ok? && Quantity(s.balances, k) >= 0
    ensures Quantity(PatchAll(s.balances, s.txns, OpsOf(s, c)), k) >= 0
  {
    var ops := OpsOf(s, c);
    TwoOps(s.balances, s.txns, ops[0], ops[1]);
  }

  lemma {:induction false} PulledNonNegative(rows: seq<(Key, int)>, k: Key)
    requires forall r <- rows :: r.1 >= 0
    ensures Pulled(rows, k).Some? ==> Pulled(rows, k).value >= 0
    decreases |rows|
  {
    if rows != [] {
      PulledNonNegative(rows[1..], k);
    }
  }

  /** What an edit or a delete does to a balance: it puts the new delta, or nothing, in place of the old one. */
  lemma RewriteShifts(s: Db, now: Time, c: Command, k: Key)
    requires (c.Edit? || c.Delete?) && c.id in s.txns && Try(s, now, c).Ok?
    ensures Quantity(Step(s, now, c).balances, k)
         == Quantity(s.balances, k)
            + if k == s.txns[c.id].key then (if c.Edit? then c.change else 0) - s.txns[c.id].delta else 0
  {
    StepFollows(s, now, c);
    OneOp(s.balances, s.txns, OpsOf(s, c)[0]);
  }

  /** Exactly when an accepted edit or delete breaks strict mode at a balance: the balance is its row's, and it
      takes back more than there is. */
  lemma RewriteEscapesExactly(s: Db, now: Time, c: Command, k: Key)
    requires (c.Edit? || c.Delete?) && c.id in s.txns && Try(s, now, c).Ok? && Quantity(s.balances, k) >= 0
    ensures Quantity(Step(s, now, c).balances, k) < 0 <==> k == s.txns[c.id].key && !KeepsStock(s, c)
  {
    RewriteShifts(s, now, c, k);
  }

  /** Edits and deletes of a row that is not there change no balance. */
  lemma MissingRowKeeps(s: Db, now: Time, c: Command)
    requires (c.Edit? || c.Delete?) && c.id !in s.txns
    ensures Step(s, now, c).balances == s.balances
  {
  }

  lemma GuardedStep(s: Db, now: Time, c: Command, k: Key)
    requires !c.Edit? && !c.Delete? && !c.Pull? && !c.UpdateRowStatuses? && Try(s, now, c).Ok?
    requires PositiveTransfers(s) && Quantity(s.balances, k) >= 0
    ensures Quantity(Step(s, now, c).balances, k) >= 0
  {
    StepFollows(s, now, c);
    if IsSingleMovement(c) {
      GuardedMovement(s, now, c);
      var row := SingleMovement(s, now, c);
    } else if c.MoveBucket? {
      MoveKeepsNonNegative(s, now, c, k);
    }
  }

  lemma StrictStep(s: Db, now: Time, c: Command, k: Key)
    requires IsStrict(s, c) && PositiveTransfers(s) && Quantity(s.balances, k) >= 0
    ensures Quantity(Step(s, now, c).balances, k) >= 0
  {
    if Try(s, now, c).Ok? {
      if c.Edit? || c.Delete? {
        if c.id in s.txns {
          RewriteEscapesExactly(s, now, c, k);
        } else {
          MissingRowKeeps(s, now, c);
        }
      } else if c.Pull? {
        PullSetsQuantities(s, now, c.rows, k);
        PulledNonNegative(c.rows, k);
      } else if !c.UpdateRowStatuses? {
        GuardedStep(s, now, c, k);
      }
    }
  }

  lemma StepKeepsPositive(s: Db, now: Time, c: Command)
    requires PositiveTransfers(s)
    ensures PositiveTransfers(Step(s, now, c))
  {
    forall id <- Step(s, now, c).transfers.Keys
      ensures Step(s, now, c).transfers[id].quantity > 0
    {
      if id in s.transfers {
        TransferStep(s, now, c, id);
      } else {
        StepTransfers(s, now, c);
      }
    }
  }

  ghost predicate StrictRun(s: Db, cs: seq<Timed>)
    decreases |cs|
  {
    cs == [] || (IsStrict(s, cs[0].command) && StrictRun(Step(s, cs[0].now, cs[0].command), cs[1..]))
  }

  /** From a non-negative balance, every run whose edits and deletes keep to the missing check, and whose pulls
      hold no negative balance, keeps it non-negative. */
  lemma {:induction false} StrictModeIsSafe(s: Db, cs: seq<Timed>, k: Key)
    requires PositiveTransfers(s) && Quantity(s.balances, k) >= 0 && StrictRun(s, cs)
    ensures Quantity(Run(s, cs).balances, k) >= 0
    decreases |cs|
  {
    if cs != [] {
      StrictStep(s, cs[0].now, cs[0].command, k);
      StepKeepsPositive(s, cs[0].now, cs[0].command);
      StrictModeIsSafe(Step(s, cs[0].now, cs[0].command), cs[1..], k);
    }
  }

  /** Nothing stops such an edit: an edit of any row but a sale is accepted whatever the stock. */
  lemma EditEscapesStrictMode(s: Db, now: Time, c: Command)
    requires c.Edit? && c.id in s.txns && s.txns[c.id].movement != Sale && Quantity(s.balances, s.txns[c.id].key) >= 0
    ensures Try(s, now, c).Ok?
    ensures Quantity(Step(s, now, c).balances, s.txns[c.id].key) < 0 <==> !KeepsStock(s, c)
  {
    assert Try(s, now, c) == TryEdit(s, now, c);
    RewriteEscapesExactly(s, now, c, s.txns[c.id].key);
  }
}
