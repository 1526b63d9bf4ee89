/** The order in which a batch of movements is pushed. */
module PushOrder {
  import opened Types
  import opened Outbox

  /** A movement of a push request with the outbox row it comes from; `None` is a movement type the
      priority table does not list. */
  datatype Item = Item(row: EventId, txn: string, key: Key, movement: Option<MovementType>, delta: int,
                       occurredAt: Time)

  /** MOVEMENT_PUSH_PRIORITY: counts first, then inflows, then outflows, then anything unknown. */
  function Priority(m: Option<MovementType>): nat {
    match m
    case None => 3
    case Some(Adjustment) => 0
    case Some(Receipt) | Some(TransferIn) | Some(Return) => 1
    case Some(Sale) | Some(TransferOut) | Some(Damage) => 2
  }

  /** The collation of transaction ids, `localeCompare(a, b) <= 0`. */
  type Collation = (string, string) -> bool

  ghost predicate IsTotalPreorder(leq: Collation) {
    && (forall a, b :: leq(a, b) || leq(b, a))
    && (forall a, b, c :: leq(a, b) && leq(b, c) ==> leq(a, c))
  }

  /** The comparator is not positive: `a` may stand before `b`. */
  predicate NotAfter(a: Item, b: Item, leq: Collation) {
    var pa, pb := Priority(a.movement), Priority(b.movement);
    if pa != pb then pa < pb
    else if a.occurredAt != b.occurredAt then a.occurredAt < b.occurredAt
    else leq(a.txn, b.txn)
  }

  ghost predicate IsOrdered(s: seq<Item>, leq: Collation) {
    forall i, j | 0 <= i < j < |s| :: NotAfter(s[i], s[j], leq)
  }

  /** Places an item behind everything that may stand before it. */
  function Insert(s: seq<Item>, x: Item, leq: Collation): seq<Item>
    decreases |s|
  {
    if s == [] || NotAfter(s[|s| - 1], x, leq) then s + [x]
    else Insert(s[..|s| - 1], x, leq) + [s[|s| - 1]]
  }

  /** _sortPushItems: a stable sort by the comparator. */
  function Sort(s: seq<Item>, leq: Collation): seq<Item>
    decreases |s|
  {
    if s == [] then [] else Insert(Sort(s[..|s| - 1], leq), s[|s| - 1], leq)
  }

  // ---------------------------------------------------------------- an ordered permutation

  lemma {:induction false} InsertAdds(s: seq<Item>, x: Item, leq: Collation)
    ensures multiset(Insert(s, x, leq)) == multiset(s) + multiset{x}
    decreases |s|
  {
    if s != [] && !NotAfter(s[|s| - 1], x, leq) {
      InsertAdds(s[..|s| - 1], x, leq);
      assert s == s[..|s| - 1] + [s[|s| - 1]];
    }
  }

  lemma {:induction false} InsertMembers(s: seq<Item>, x: Item, leq: Collation, y: Item)
    ensures y in Insert(s, x, leq) <==> y == x || y in s
    ensures |Insert(s, x, leq)| == |s| + 1
    decreases |s|
  {
    if s != [] && !NotAfter(s[|s| - 1], x, leq) {
      InsertMembers(s[..|s| - 1], x, leq, y);
      assert s == s[..|s| - 1] + [s[|s| - 1]];
    }
  }

  lemma {:induction false} InsertOrders(s: seq<Item>, x: Item, leq: Collation)
    requires IsTotalPreorder(leq) && IsOrdered(s, leq)
    ensures IsOrdered(Insert(s, x, leq), leq)
    decreases |s|
  {
    if s != [] && !NotAfter(s[|s| - 1], x, leq) {
      var init, last := s[..|s| - 1], s[|s| - 1];
      InsertOrders(init, x, leq);
      forall y <- Insert(init, x, leq)
        ensures NotAfter(y, last, leq)
      {
        InsertMembers(init, x, leq, y);
      }
    } else if s != [] {
      forall i | 0 <= i < |s|
        ensures NotAfter(s[i], x, leq)
      {
        assert i < |s| - 1 ==> NotAfter(s[i], s[|s| - 1], leq);
      }
    }
  }

  /** The sorted batch is an ordered permutation of the batch. */
  lemma {:induction false} SortIsOrderedPermutation(s: seq<Item>, leq: Collation)
    requires IsTotalPreorder(leq)
    ensures multiset(Sort(s, leq)) == multiset(s)
    ensures IsOrdered(Sort(s, leq), leq)
    decreases |s|
  {
    if s != [] {
      var init, last := s[..|s| - 1], s[|s| - 1];
      SortIsOrderedPermutation(init, leq);
      InsertAdds(Sort(init, leq), last, leq);
      InsertOrders(Sort(init, leq), last, leq);
      assert s == init + [last];
    }
  }

  /** No two items come from one outbox row. */
  ghost predicate RowsDiffer(s: seq<Item>) {
    forall i, j | 0 <= i < j < |s| :: s[i].row != s[j].row
  }

  lemma {:induction false} InsertKeepsRows(s: seq<Item>, x: Item, leq: Collation)
    requires RowsDiffer(s) && forall y <- s :: y.row != x.row
    ensures RowsDiffer(Insert(s, x, leq))
    decreases |s|
  {
    if s != [] && !NotAfter(s[|s| - 1], x, leq) {
      var init, last := s[..|s| - 1], s[|s| - 1];
      InsertKeepsRows(init, x, leq);
      forall y <- Insert(init, x, leq)
        ensures y.row != last.row
      {
        InsertMembers(init, x, leq, y);
      }
    }
  }

  lemma {:induction false} SortKeepsRows(s: seq<Item>, leq: Collation)
    requires RowsDiffer(s)
    ensures RowsDiffer(Sort(s, leq))
    decreases |s|
  {
    if s != [] {
      var init, last := s[..|s| - 1], s[|s| - 1];
      SortKeepsRows(init, leq);
      forall y <- Sort(init, leq)
        ensures y.row != last.row
      {
        SortMembers(init, leq, y);
      }
      InsertKeepsRows(Sort(init, leq), last, leq);
    }
  }

  /** Sorting neither drops nor adds an item. */
  lemma {:induction false} SortMembers(s: seq<Item>, leq: Collation, y: Item)
    ensures y in Sort(s, leq) <==> y in s
    ensures |Sort(s, leq)| == |s|
    decreases |s|
  {
    if s != [] {
      var init, last := s[..|s| - 1], s[|s| - 1];
      SortMembers(init, leq, y);
      InsertMembers(Sort(init, leq), last, leq, y);
      assert s == init + [last];
    }
  }

  /** The two last items may each stand before the other. */
  lemma LastItemsTie(s: seq<Item>, t: seq<Item>, leq: Collation)
    requires |s| == |t| > 0 && IsOrdered(s, leq) && IsOrdered(t, leq)
    requires s[|s| - 1] in t && t[|t| - 1] in s
    ensures s[|s| - 1] == t[|t| - 1] || (NotAfter(s[|s| - 1], t[|t| - 1], leq) && NotAfter(t[|t| - 1], s[|s| - 1], leq))
  {
    var n := |s| - 1;
    var i :| 0 <= i < |t| && t[i] == s[n];
    var j :| 0 <= j < |s| && s[j] == t[n];
    if i < n && j < n {
      assert NotAfter(t[i], t[n], leq) && NotAfter(s[j], s[n], leq);
    }
  }

  lemma DropLast(s: seq<Item>, t: seq<Item>)
    requires multiset(s) == multiset(t) && |s| == |t| > 0 && s[|s| - 1] == t[|t| - 1]
    ensures multiset(s[..|s| - 1]) == multiset(t[..|t| - 1])
  {
    var n := |s| - 1;
    assert s == s[..n] + [s[n]] && t == t[..n] + [t[n]];
    assert multiset(s[..n]) == multiset(s) - multiset{s[n]};
    assert multiset(t[..n]) == multiset(t) - multiset{t[n]};
  }

  /** No two different items tie. */
  ghost predicate TellsApart(s: seq<Item>, leq: Collation) {
    forall i, j | 0 <= i < |s| && 0 <= j < |s| ::
      NotAfter(s[i], s[j], leq) && NotAfter(s[j], s[i], leq) ==> s[i] == s[j]
  }

  lemma LastItemsMeet(s: seq<Item>, t: seq<Item>, leq: Collation)
    requires multiset(s) == multiset(t) && |s| == |t| > 0 && IsOrdered(s, leq) && IsOrdered(t, leq)
    requires TellsApart(s, leq)
    ensures s[|s| - 1] == t[|t| - 1]
  {
    var n := |s| - 1;
    assert s[n] in multiset(t) && t[n] in multiset(s);
    LastItemsTie(s, t, leq);
    var j :| 0 <= j < |s| && s[j] == t[n];
  }

  /** Where the comparator tells all items apart there is one ordered permutation, so any sort gives it. */
  lemma {:induction false} OrderIsUnique(s: seq<Item>, t: seq<Item>, leq: Collation)
    requires multiset(s) == multiset(t) && IsOrdered(s, leq) && IsOrdered(t, leq) && TellsApart(s, leq)
    ensures s == t
    decreases |s|
  {
    assert |s| == |multiset(s)| == |multiset(t)| == |t|;
    if s != [] {
      var n := |s| - 1;
      LastItemsMeet(s, t, leq);
      DropLast(s, t);
      OrderIsUnique(s[..n], t[..n], leq);
    }
  }

  /** The comparator is zero. */
  predicate Ties(a: Item, b: Item, leq: Collation) {
    NotAfter(a, b, leq) && NotAfter(b, a, leq)
  }

  /** The items that tie with one, in list order. */
  function TiedWith(s: seq<Item>, x: Item, leq: Collation): seq<Item>
    decreases |s|
  {
    if s == [] then []
    else TiedWith(s[..|s| - 1], x, leq) + if Ties(s[|s| - 1], x, leq) then [s[|s| - 1]] else []
  }

  lemma TiesAreTransitive(a: Item, b: Item, x: Item, leq: Collation)
    requires IsTotalPreorder(leq) && Ties(a, x, leq) && Ties(b, x, leq)
    ensures Ties(a, b, leq)
  {
  }

  lemma {:induction false} InsertIsStable(s: seq<Item>, y: Item, x: Item, leq: Collation)
    requires IsTotalPreorder(leq)
    ensures TiedWith(Insert(s, y, leq), x, leq) == TiedWith(s, x, leq) + if Ties(y, x, leq) then [y] else []
    decreases |s|
  {
    if s == [] || NotAfter(s[|s| - 1], y, leq) {
      assert (s + [y])[..|s|] == s;
    } else {
      var init, last := s[..|s| - 1], s[|s| - 1];
      InsertIsStable(init, y, x, leq);
      var t := Insert(init, y, leq);
      assert (t + [last])[..|t|] == t;
      if Ties(y, x, leq) && Ties(last, x, leq) {
        TiesAreTransitive(last, y, x, leq);
        assert false;
      }
    }
  }

  /** The sort is stable: items the comparator does not tell apart stay in batch order. */
  lemma {:induction false} SortIsStable(s: seq<Item>, x: Item, leq: Collation)
    requires IsTotalPreorder(leq)
    ensures TiedWith(Sort(s, leq), x, leq) == TiedWith(s, x, leq)
    decreases |s|
  {
    if s != [] {
      SortIsStable(s[..|s| - 1], x, leq);
      InsertIsStable(Sort(s[..|s| - 1], leq), s[|s| - 1], x, leq);
    }
  }

  /** What the order means, item by item: counts before inflows, inflows before outflows, unlisted types last, and
      among equals the earlier first, then the smaller id. */
  lemma OrderMeans(s: seq<Item>, leq: Collation, i: nat, j: nat)
    requires IsTotalPreorder(leq) && i < j < |Sort(s, leq)|
    ensures var a, b := Sort(s, leq)[i], Sort(s, leq)[j];
      && (b.movement == Some(Adjustment) ==> a.movement == Some(Adjustment))
      && (b.movement in {Some(Receipt), Some(TransferIn), Some(Return)} ==>
            a.movement in {Some(Adjustment), Some(Receipt), Some(TransferIn), Some(Return)})
      && (a.movement == None ==> b.movement == None)
      && (a.movement == b.movement ==>
            a.occurredAt < b.occurredAt || (a.occurredAt == b.occurredAt && leq(a.txn, b.txn)))
      && ({a.movement, b.movement} <= {Some(Receipt), Some(TransferIn), Some(Return)} ==> a.occurredAt <= b.occurredAt)
      && ({a.movement, b.movement} <= {Some(Sale), Some(TransferOut), Some(Damage)} ==> a.occurredAt <= b.occurredAt)
  {
    SortIsOrderedPermutation(s, leq);
    assert NotAfter(Sort(s, leq)[i], Sort(s, leq)[j], leq);
  }

  // ---------------------------------------------------------------- levels

  /** The sum of a key's deltas. */
  function KeySum(s: seq<Item>, k: Key): int
    decreases |s|
  {
    if s == [] then 0
    else KeySum(s[..|s| - 1], k) + if s[|s| - 1].key == k then s[|s| - 1].delta else 0
  }

  lemma {:induction false} KeySumConcat(a: seq<Item>, b: seq<Item>, k: Key)
    ensures KeySum(a + b, k) == KeySum(a, k) + KeySum(b, k)
    decreases |b|
  {
    if b == [] {
      assert a + b == a;
    } else {
      var n := |b| - 1;
      KeySumConcat(a, b[..n], k);
      assert (a + b)[..|a + b| - 1] == a + b[..n];
    }
  }

  lemma {:induction false} InsertKeySum(s: seq<Item>, x: Item, leq: Collation, k: Key)
    ensures KeySum(Insert(s, x, leq), k) == KeySum(s, k) + if x.key == k then x.delta else 0
    decreases |s|
  {
    if s == [] || NotAfter(s[|s| - 1], x, leq) {
      assert (s + [x])[..|s|] == s;
    } else {
      var init, last := s[..|s| - 1], s[|s| - 1];
      InsertKeySum(init, x, leq, k);
      assert (Insert(init, x, leq) + [last])[..|Insert(init, x, leq)|] == Insert(init, x, leq);
    }
  }

  /** Sorting changes no total. */
  lemma {:induction false} SortKeepsTotals(s: seq<Item>, leq: Collation, k: Key)
    ensures KeySum(Sort(s, leq), k) == KeySum(s, k)
    decreases |s|
  {
    if s != [] {
      SortKeepsTotals(s[..|s| - 1], leq, k);
      InsertKeySum(Sort(s[..|s| - 1], leq), s[|s| - 1], leq, k);
    }
  }

  /** Counts and inflows add, everything else takes. */
  predicate SignsMatch(x: Item) {
    if Priority(x.movement) <= 1 then x.delta >= 0 else x.delta <= 0
  }

  /** The items of a key do. */
  ghost predicate SignsMatchFor(s: seq<Item>, k: Key) {
    forall x <- s | x.key == k :: SignsMatch(x)
  }

  lemma {:induction false} SumSign(s: seq<Item>, k: Key)
    ensures (forall x <- s | x.key == k :: x.delta >= 0) ==> KeySum(s, k) >= 0
    ensures (forall x <- s | x.key == k :: x.delta <= 0) ==> KeySum(s, k) <= 0
    decreases |s|
  {
    if s != [] {
      SumSign(s[..|s| - 1], k);
    }
  }

  lemma RisesBefore(t: seq<Item>, leq: Collation, n: nat, i: nat)
    requires IsOrdered(t, leq) && i < n < |t| && Priority(t[n].movement) <= 1 && SignsMatch(t[i])
    ensures t[i].delta >= 0
  {
    assert NotAfter(t[i], t[n], leq);
  }

  lemma FallsAfter(t: seq<Item>, leq: Collation, n: nat, i: nat)
    requires IsOrdered(t, leq) && n <= i < |t| && Priority(t[n].movement) > 1 && SignsMatch(t[i])
    ensures t[i].delta <= 0
  {
    assert n < i ==> NotAfter(t[n], t[i], leq);
  }

  /** In push order the inflows come first, so a level rises and then falls. */
  lemma OrderedPrefix(t: seq<Item>, leq: Collation, k: Key, n: nat)
    requires IsOrdered(t, leq) && SignsMatchFor(t, k) && n <= |t|
    ensures KeySum(t[..n], k) >= 0 || KeySum(t[..n], k) >= KeySum(t, k)
  {
    if n == |t| {
      assert t[..n] == t;
    } else if Priority(t[n].movement) <= 1 {
      forall i | 0 <= i < n && t[i].key == k
        ensures t[i].delta >= 0
      {
        RisesBefore(t, leq, n, i);
      }
      SumSign(t[..n], k);
    } else {
      assert t == t[..n] + t[n..];
      KeySumConcat(t[..n], t[n..], k);
      forall i | n <= i < |t| && t[i].key == k
        ensures t[i].delta <= 0
      {
        FallsAfter(t, leq, n, i);
      }
      SumSign(t[n..], k);
    }
  }

  /** Applied in push order, a key that starts and ends at a level of at least zero never dips below it, whatever
      the batch holds for other keys. */
  lemma PrefixesStayNonNegative(s: seq<Item>, leq: Collation, k: Key, start: int, n: nat)
    requires IsTotalPreorder(leq) && SignsMatchFor(s, k)
    requires start >= 0 && start + KeySum(s, k) >= 0
    requires n <= |Sort(s, leq)|
    ensures start + KeySum(Sort(s, leq)[..n], k) >= 0
  {
    var t := Sort(s, leq);
    SortIsOrderedPermutation(s, leq);
    SortKeepsTotals(s, leq, k);
    forall x <- t | x.key == k
      ensures SignsMatch(x)
    {
      SortMembers(s, leq, x);
    }
    OrderedPrefix(t, leq, k, n);
  }

  /** The level of a key before item `n`. */
  function Level(t: seq<Item>, k: Key, start: int, n: nat): int
    requires n <= |t|
  {
    start + KeySum(t[..n], k)
  }

  /** The item raises the key. */
  predicate Rises(x: Item, k: Key) {
    x.key == k && x.delta > 0
  }

  lemma NextLevel(t: seq<Item>, k: Key, start: int, n: nat)
    requires n < |t|
    ensures Level(t, k, start, n + 1) == Level(t, k, start, n) + if t[n].key == k then t[n].delta else 0
  {
    assert t[..n + 1][..n] == t[..n];
  }

  /** A level below zero stays below until the end or until something raises it. */
  lemma {:induction false} DipIsSeen(t: seq<Item>, k: Key, start: int, n: nat)
    requires n <= |t| && Level(t, k, start, n) < 0
    ensures Level(t, k, start, |t|) < 0 || exists m: nat :: m < |t| && Rises(t[m], k) && Level(t, k, start, m) < 0
    decreases |t| - n
  {
    if n < |t| && !Rises(t[n], k) {
      NextLevel(t, k, start, n);
      DipIsSeen(t, k, start, n + 1);
    }
  }

  /** Exactly: a key never dips below zero on the way through a list if and only if it is not below zero at the
      start, at the end, or just before any item that raises it. */
  lemma NeverDipsExactly(t: seq<Item>, k: Key, start: int)
    ensures (forall n: nat | n <= |t| :: Level(t, k, start, n) >= 0)
            <==> start >= 0 && Level(t, k, start, |t|) >= 0
                 && forall n: nat | n < |t| && Rises(t[n], k) :: Level(t, k, start, n) >= 0
  {
    assert Level(t, k, start, 0) == start by {
      assert t[..0] == [];
    }
    if n: nat :| n <= |t| && Level(t, k, start, n) < 0 {
      DipIsSeen(t, k, start, n);
    }
  }

  /** For a sorted batch the end is the total of the batch in any order. */
  lemma PushNeverDipsExactly(s: seq<Item>, leq: Collation, k: Key, start: int)
    ensures var t := Sort(s, leq);
      (forall n: nat | n <= |t| :: Level(t, k, start, n) >= 0)
      <==> start >= 0 && start + KeySum(s, k) >= 0
           && forall n: nat | n < |t| && Rises(t[n], k) :: Level(t, k, start, n) >= 0
  {
    var t := Sort(s, leq);
    NeverDipsExactly(t, k, start);
    SortKeepsTotals(s, leq, k);
    assert t[..|t|] == t;
  }

  /** The sign condition is needed: the compensating row of a cancelled transfer is an outflow type with a
      positive quantity, so an earlier sale of the restored goods is pushed before it. */
  lemma CompensationComesLate(a: EventId, b: EventId, k: Key, q: int, leq: Collation)
    requires q > 0
    ensures
      var sale := Item(a, "TX-2", k, Some(Sale), -q, 1);
      var restored := Item(b, "TX-1", k, Some(TransferOut), q, 2);
      var t := Sort([restored, sale], leq);
      KeySum(t, k) == 0 && KeySum(t[..1], k) == -q
  {
    var sale := Item(a, "TX-2", k, Some(Sale), -q, 1);
    var restored := Item(b, "TX-1", k, Some(TransferOut), q, 2);
    assert [restored, sale][..1] == [restored] && [restored][..0] == [];
    assert Sort([restored], leq) == [restored];
    assert Insert([], sale, leq) == [sale];
    assert Sort([restored, sale], leq) == [sale, restored];
    assert [sale, restored][..1] == [sale] && [sale][..0] == [];
    assert KeySum([sale], k) == -q;
    assert KeySum([sale, restored], k) == KeySum([sale, restored][..1], k) + q;
  }
}
