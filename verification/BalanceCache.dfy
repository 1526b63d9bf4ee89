/** The read-through stock balance cache of the transaction service. */
module BalanceCache {
  import opened Types
  import opened Database

  // ---------------------------------------------------------------- keys

  function BucketName(b: Bucket): string {
    match b
    case Available => "AVAILABLE"
    case Damaged => "DAMAGED"
    case Quarantine => "QUARANTINE"
    case InTransit => "IN_TRANSIT"
  }

  function Joined(store: string, product: string, bucket: string): string {
    store + [':'] + (product + [':'] + bucket)
  }

  /** The template `${store}:${product}:${bucket}`. */
  function CacheKey(k: Key): string {
    Joined(k.store, k.product, BucketName(k.bucket))
  }

  predicate IsPlain(s: string) {
    ':' !in s
  }

  /** A text is cut at its first colon in one way. */
  lemma CutAtFirst(a: string, b: string, c: string, d: string)
    requires IsPlain(a) && IsPlain(c) && a + [':'] + b == c + [':'] + d
    ensures a == c && b == d
  {
    var s := a + [':'] + b;
    assert s[|a|] == ':' && s[|c|] == ':';
    assert forall i | 0 <= i < |a| :: s[i] == a[i] != ':';
    assert forall i | 0 <= i < |c| :: s[i] == c[i] != ':';
    assert a == s[..|a|] && c == s[..|c|];
    assert b == s[|a| + 1..] && d == s[|c| + 1..];
  }

  /** A text is cut at its last colon in one way. */
  lemma CutAtLast(a: string, b: string, c: string, d: string)
    requires IsPlain(b) && IsPlain(d) && a + [':'] + b == c + [':'] + d
    ensures a == c && b == d
  {
    var s := a + [':'] + b;
    assert s[|a|] == ':' && s[|c|] == ':';
    assert forall i | |a| < i < |s| :: s[i] == b[i - |a| - 1] != ':';
    assert forall i | |c| < i < |s| :: s[i] == d[i - |c| - 1] != ':';
    assert a == s[..|a|] && c == s[..|c|];
    assert b == s[|a| + 1..] && d == s[|c| + 1..];
  }

  lemma BucketNames(a: Bucket, b: Bucket)
    ensures IsPlain(BucketName(a))
    ensures BucketName(a) == BucketName(b) ==> a == b
  {
    assert BucketName(Available)[0] == 'A' && BucketName(Damaged)[0] == 'D';
    assert BucketName(Quarantine)[0] == 'Q' && BucketName(InTransit)[0] == 'I';
  }

  lemma JoinedOneWay(a: string, b: string, c: string, d: string, e: string, f: string)
    requires IsPlain(a) && IsPlain(d) && IsPlain(c) && IsPlain(f) && Joined(a, b, c) == Joined(d, e, f)
    ensures a == d && b == e && c == f
  {
    CutAtFirst(a, b + [':'] + c, d, e + [':'] + f);
    CutAtLast(b, c, e, f);
  }

  /** Keys are told apart as long as store ids hold no colon; product ids may hold any. */
  lemma CacheKeyIsInjective(a: Key, b: Key)
    requires IsPlain(a.store) && IsPlain(b.store)
    ensures CacheKey(a) == CacheKey(b) <==> a == b
  {
    if CacheKey(a) == CacheKey(b) {
      BucketNames(a.bucket, b.bucket);
      BucketNames(b.bucket, a.bucket);
      JoinedOneWay(a.store, a.product, BucketName(a.bucket), b.store, b.product, BucketName(b.bucket));
    }
  }

  /** With a colon in a store id two different balances can share an entry. */
  lemma ColonsCollide(bucket: Bucket)
    ensures var a, b := Key("x", ":y", bucket), Key("x:", "y", bucket);
      a != b && CacheKey(a) == CacheKey(b)
  {
  }

  // ---------------------------------------------------------------- the cache beside the table

  datatype Hit = Hit(quantity: int, at: Time)

  /** The table's contents from a moment on. */
  datatype Version = Version(since: Time, balances: map<Key, int>)

  /** The cache and every version the stock_balances table has had, the current one last. Times are
      milliseconds here. */
  datatype World = World(cache: map<string, Hit>, versions: seq<Version>)

  const TTL := 30_000

  function Current(w: World): map<Key, int>
    requires w.versions != []
  {
    w.versions[|w.versions| - 1].balances
  }

  predicate IsFresh(h: Hit, now: Time) {
    now - h.at <= TTL
  }

  /** _readBalanceCache: the quantity of a fresh entry. */
  function ReadCache(cache: map<string, Hit>, k: Key, now: Time): Option<int> {
    if CacheKey(k) in cache && IsFresh(cache[CacheKey(k)], now) then Some(cache[CacheKey(k)].quantity) else None
  }

  /** What a read answers, and the cache it leaves. */
  function Answer(w: World, k: Key, now: Time): int
    requires w.versions != []
  {
    var hit := ReadCache(w.cache, k, now);
    if hit.Some? then hit.value else Quantity(Current(w), k)
  }

  function AfterRead(w: World, k: Key, now: Time): World
    requires w.versions != []
  {
    if ReadCache(w.cache, k, now).Some? then w
    else w.(cache := w.cache[CacheKey(k) := Hit(Quantity(Current(w), k), now)])
  }

  /** getStockBalancesForStore writes every row it returns to the cache. */
  function Primed(cache: map<string, Hit>, balances: map<Key, int>, rows: seq<Key>, now: Time): map<string, Hit>
    requires forall k <- rows :: k in balances
    decreases |rows|
  {
    if rows == [] then cache
    else
      var k := rows[|rows| - 1];
      Primed(cache, balances, rows[..|rows| - 1], now)[CacheKey(k) := Hit(balances[k], now)]
  }

  /** What can happen: reads, the mutators that clear the cache after their command (and a pull), and any
      other writer of the table, such as the transfer commands. */
  datatype Step =
    | ReadBalance(k: Key)
    | ReadStore(store: string, rows: seq<Key>)
    | Mutate(balances: map<Key, int>)
    | WriteElsewhere(balances: map<Key, int>)

  ghost predicate Allowed(w: World, now: Time, e: Step) {
    && w.versions != [] && w.versions[|w.versions| - 1].since <= now
    && match e
       case ReadBalance(k) => IsPlain(k.store)
       case ReadStore(store, rows) =>
         IsPlain(store) && forall k <- rows :: k in Current(w) && k.store == store && k.bucket == Available
       case Mutate(_) => true
       case WriteElsewhere(_) => true
  }

  function Next(w: World, now: Time, e: Step): World
    requires w.versions != [] && (e.ReadStore? ==> forall k <- e.rows :: k in Current(w))
  {
    match e
    case ReadBalance(k) => AfterRead(w, k, now)
    case ReadStore(_, rows) => w.(cache := Primed(w.cache, Current(w), rows, now))
    case Mutate(balances) => World(map[], w.versions + [Version(now, balances)])
    case WriteElsewhere(balances) => w.(versions := w.versions + [Version(now, balances)])
  }

  // ---------------------------------------------------------------- a read is at most 30 seconds old

  /** Version `i` was current at some moment between the two. */
  predicate IsHeld(versions: seq<Version>, i: nat, from: Time, until: Time) {
    && i < |versions| && versions[i].since <= until
    && (i + 1 < |versions| ==> from <= versions[i + 1].since)
  }

  /** The table held this quantity at some moment between the two. */
  ghost predicate HeldBetween(versions: seq<Version>, k: Key, from: Time, until: Time, q: int) {
    exists i: nat :: IsHeld(versions, i, from, until) && Quantity(versions[i].balances, k) == q
  }

  /** An entry holds what the table held when it was written. */
  ghost predicate EntryIsTrue(w: World, k: Key, now: Time) {
    CacheKey(k) in w.cache ==>
      var h := w.cache[CacheKey(k)];
      h.at <= now && HeldBetween(w.versions, k, h.at, h.at, h.quantity)
  }

  ghost predicate IsTrue(w: World, now: Time) {
    && w.versions != [] && w.versions[|w.versions| - 1].since <= now
    && forall k: Key | IsPlain(k.store) :: EntryIsTrue(w, k, now)
  }

  lemma HeldStays(versions: seq<Version>, v: Version, k: Key, at: Time, q: int)
    requires HeldBetween(versions, k, at, at, q) && at <= v.since
    ensures HeldBetween(versions + [v], k, at, at, q)
  {
    var i: nat :| IsHeld(versions, i, at, at) && Quantity(versions[i].balances, k) == q;
    assert IsHeld(versions + [v], i, at, at) && (versions + [v])[i] == versions[i];
  }

  lemma HeldNow(w: World, k: Key, now: Time)
    requires w.versions != [] && w.versions[|w.versions| - 1].since <= now
    ensures HeldBetween(w.versions, k, now, now, Quantity(Current(w), k))
  {
    assert IsHeld(w.versions, |w.versions| - 1, now, now);
  }

  lemma HeldWider(versions: seq<Version>, k: Key, at: Time, q: int, from: Time, until: Time)
    requires HeldBetween(versions, k, at, at, q) && from <= at <= until
    ensures HeldBetween(versions, k, from, until, q)
  {
    var i: nat :| IsHeld(versions, i, at, at) && Quantity(versions[i].balances, k) == q;
    assert IsHeld(versions, i, from, until);
  }

  /** Writing one key's entry leaves every other key's alone. */
  lemma EntryWritten(cache: map<string, Hit>, r: Key, h: Hit, k: Key)
    requires IsPlain(r.store) && IsPlain(k.store)
    ensures var c := cache[CacheKey(r) := h];
      if k == r then CacheKey(k) in c && c[CacheKey(k)] == h
      else (CacheKey(k) in c <==> CacheKey(k) in cache) && (CacheKey(k) in c ==> c[CacheKey(k)] == cache[CacheKey(k)])
  {
    CacheKeyIsInjective(k, r);
  }

  /** After a store read an entry is the old one or, for a row that was read, the current quantity. */
  lemma {:induction false} PrimedEntry(cache: map<string, Hit>, balances: map<Key, int>, rows: seq<Key>, now: Time,
                                       store: string, k: Key)
    requires IsPlain(store) && IsPlain(k.store)
    requires forall r <- rows :: r in balances && r.store == store
    ensures var c := Primed(cache, balances, rows, now);
      if k in rows then CacheKey(k) in c && c[CacheKey(k)] == Hit(balances[k], now)
      else (CacheKey(k) in c <==> CacheKey(k) in cache) && (CacheKey(k) in c ==> c[CacheKey(k)] == cache[CacheKey(k)])
    decreases |rows|
  {
    if rows != [] {
      var init, last := rows[..|rows| - 1], rows[|rows| - 1];
      assert rows == init + [last];
      PrimedEntry(cache, balances, init, now, store, k);
      EntryWritten(Primed(cache, balances, init, now), last, Hit(balances[last], now), k);
    }
  }

  lemma NextKeepsEntry(w: World, since: Time, now: Time, e: Step, k: Key)
    requires IsTrue(w, since) && since <= now && Allowed(w, now, e) && IsPlain(k.store)
    ensures EntryIsTrue(Next(w, now, e), k, now)
  {
    assert EntryIsTrue(w, k, since);
    match e
    case ReadBalance(r) =>
      CacheKeyIsInjective(k, r);
      HeldNow(w, k, now);
    case ReadStore(store, rows) =>
      PrimedEntry(w.cache, Current(w), rows, now, store, k);
      HeldNow(w, k, now);
    case Mutate(_) =>
    case WriteElsewhere(balances) =>
      if CacheKey(k) in w.cache {
        var h := w.cache[CacheKey(k)];
        HeldStays(w.versions, Version(now, balances), k, h.at, h.quantity);
      }
  }

  lemma NextKeepsTrue(w: World, since: Time, now: Time, e: Step)
    requires IsTrue(w, since) && since <= now && Allowed(w, now, e)
    ensures IsTrue(Next(w, now, e), now)
  {
    forall k: Key | IsPlain(k.store)
      ensures EntryIsTrue(Next(w, now, e), k, now)
    {
      NextKeepsEntry(w, since, now, e, k);
    }
  }

  // ---------------------------------------------------------------- runs

  type Timeline = seq<(Time, Step)>

  ghost predicate AllowedRun(w: World, es: Timeline)
    decreases |es|
  {
    es == [] || (Allowed(w, es[0].0, es[0].1) && AllowedRun(Next(w, es[0].0, es[0].1), es[1..])
                 && (|es| > 1 ==> es[0].0 <= es[1].0))
  }

  ghost function RunOf(w: World, es: Timeline): World
    requires AllowedRun(w, es)
    decreases |es|
  {
    if es == [] then w else RunOf(Next(w, es[0].0, es[0].1), es[1..])
  }

  lemma {:induction false} RunKeepsTrue(w: World, start: Time, es: Timeline, now: Time)
    requires IsTrue(w, start) && AllowedRun(w, es)
    requires if es == [] then start <= now else start <= es[0].0 && es[|es| - 1].0 <= now
    ensures IsTrue(RunOf(w, es), now)
    decreases |es|
  {
    if es == [] {
      forall k: Key | IsPlain(k.store)
        ensures EntryIsTrue(w, k, now)
      {
        assert EntryIsTrue(w, k, start);
      }
    } else {
      NextKeepsTrue(w, start, es[0].0, es[0].1);
      RunKeepsTrue(Next(w, es[0].0, es[0].1), es[0].0, es[1..], now);
    }
  }

  /** Whoever writes the table: a read returns a quantity the table held within the last 30 seconds. */
  lemma {:induction false} ReadsAreRecent(balances: map<Key, int>, start: Time, es: Timeline, k: Key, now: Time)
    requires AllowedRun(World(map[], [Version(start, balances)]), es) && IsPlain(k.store)
    requires if es == [] then start <= now else start <= es[0].0 && es[|es| - 1].0 <= now
    ensures var w := RunOf(World(map[], [Version(start, balances)]), es);
      w.versions != [] && HeldBetween(w.versions, k, now - 30_000, now, Answer(w, k, now))
  {
    var w0 := World(map[], [Version(start, balances)]);
    RunKeepsTrue(w0, start, es, now);
    var w := RunOf(w0, es);
    assert EntryIsTrue(w, k, now);
    if ReadCache(w.cache, k, now).Some? {
      var h := w.cache[CacheKey(k)];
      HeldWider(w.versions, k, h.at, h.quantity, now - TTL, now);
    } else {
      HeldNow(w, k, now);
      HeldWider(w.versions, k, now, Quantity(Current(w), k), now - TTL, now);
    }
  }

  // ---------------------------------------------------------------- without other writers a read is exact

  ghost predicate IsExact(w: World) {
    && w.versions != []
    && forall k: Key | IsPlain(k.store) && CacheKey(k) in w.cache ::
         w.cache[CacheKey(k)].quantity == Quantity(Current(w), k)
  }

  lemma NextKeepsExact(w: World, now: Time, e: Step)
    requires Allowed(w, now, e) && !e.WriteElsewhere? && (IsExact(w) || e.Mutate?)
    ensures IsExact(Next(w, now, e))
  {
    var w' := Next(w, now, e);
    forall k: Key | IsPlain(k.store) && CacheKey(k) in w'.cache
      ensures w'.cache[CacheKey(k)].quantity == Quantity(Current(w'), k)
    {
      match e
      case ReadBalance(r) => CacheKeyIsInjective(k, r);
      case ReadStore(store, rows) => PrimedEntry(w.cache, Current(w), rows, now, store, k);
      case Mutate(_) =>
    }
  }

  /** Every other write is followed by an invalidating one. */
  ghost predicate IsRepaired(es: Timeline, exact: bool)
    decreases |es|
  {
    if es == [] then exact
    else IsRepaired(es[1..], if es[0].1.WriteElsewhere? then false else exact || es[0].1.Mutate?)
  }

  lemma {:induction false} RunIsExact(w: World, es: Timeline, exact: bool)
    requires AllowedRun(w, es) && IsRepaired(es, exact) && w.versions != [] && (exact ==> IsExact(w))
    ensures IsExact(RunOf(w, es))
    decreases |es|
  {
    if es != [] {
      var e := es[0].1;
      if !e.WriteElsewhere? && (exact || e.Mutate?) {
        NextKeepsExact(w, es[0].0, e);
      }
      RunIsExact(Next(w, es[0].0, e), es[1..], if e.WriteElsewhere? then false else exact || e.Mutate?);
    }
  }

  /** Where every writer clears the cache (or one that does comes after the last that does not), a read
      returns the current balance. */
  lemma {:induction false} ReadsAreExact(balances: map<Key, int>, start: Time, es: Timeline, k: Key, now: Time)
    requires AllowedRun(World(map[], [Version(start, balances)]), es) && IsPlain(k.store) && IsRepaired(es, true)
    ensures var w := RunOf(World(map[], [Version(start, balances)]), es);
      w.versions != [] && Answer(w, k, now) == Quantity(Current(w), k)
  {
    RunIsExact(World(map[], [Version(start, balances)]), es, true);
  }

  /** After a transfer command, which does not clear the cache, a fresh entry answers with the old balance. */
  lemma OtherWriterLeavesStaleRead(w: World, k: Key, written: Time, balances: map<Key, int>, now: Time)
    requires IsExact(w) && IsPlain(k.store) && ReadCache(w.cache, k, now).Some?
    ensures var w' := Next(w, written, WriteElsewhere(balances));
      Answer(w', k, now) == Quantity(Current(w'), k) <==> Quantity(balances, k) == Quantity(Current(w), k)
  {
  }

  /** A read that has to ask the table answers every read of the next 30 seconds from the cache. */
  lemma SecondReadHits(w: World, k: Key, now: Time, later: Time)
    requires w.versions != [] && ReadCache(w.cache, k, now) == None
    ensures Answer(w, k, now) == Quantity(Current(w), k)
    ensures ReadCache(AfterRead(w, k, now).cache, k, later)
            == if later <= now + 30_000 then Some(Quantity(Current(w), k)) else None
  {
  }

  /** An instance: a dispatch takes the goods off the shelf, and while the entry is fresh a read still answers
      with what was there before. */
  lemma DispatchLeavesStaleRead(s: Db, at: Time, c: Command, w: World, written: Time, now: Time)
    requires c.Dispatch? && Try(s, at, c).Ok? && c.transfer in s.transfers && s.transfers[c.transfer].quantity > 0
    requires var t := s.transfers[c.transfer]; var k := Key(t.source, t.product, Available);
      IsExact(w) && Current(w) == s.balances && IsPlain(k.store) && ReadCache(w.cache, k, now).Some?
    ensures var t := s.transfers[c.transfer]; var k := Key(t.source, t.product, Available);
      var w' := Next(w, written, WriteElsewhere(Database.Step(s, at, c).balances));
      && Answer(w', k, now) == Quantity(s.balances, k)
      && Quantity(Current(w'), k) == Quantity(s.balances, k) - t.quantity
  {
    DispatchTakes(s, at, c);
  }

  lemma DispatchTakes(s: Db, at: Time, c: Command)
    requires c.Dispatch? && Try(s, at, c).Ok?
    ensures c.transfer in s.transfers
    ensures var t := s.transfers[c.transfer]; var k := Key(t.source, t.product, Available);
      Quantity(Database.Step(s, at, c).balances, k) == Quantity(s.balances, k) - t.quantity
  {
    assert Try(s, at, c) == TryDispatch(s, at, c);
  }

  // ---------------------------------------------------------------- the module's variables

  /** The result map of a store read. */
  function RowsByProduct(table: map<Key, int>, store: string, keys: seq<Key>): (m: map<string, int>)
    requires forall k :: k in keys <==> k in table && k.store == store && k.bucket == Available
    ensures forall p :: p in m <==> Key(store, p, Available) in table
    ensures forall p <- m.Keys :: m[p] == table[Key(store, p, Available)]
  {
    var m := map k | k in keys :: k.product := table[k];
    assert forall p | Key(store, p, Available) in table :: Key(store, p, Available) in keys;
    m
  }

  /** The service's cache in front of the stock_balances table. */
  class BalanceService {
    var cache: map<string, Hit>
    var table: map<Key, int>
    ghost var versions: seq<Version>

    ghost function Abstract(): World
      reads this
    {
      World(cache, versions)
    }

    ghost predicate Valid()
      reads this
    {
      versions != [] && table == Current(Abstract())
    }

    constructor (balances: map<Key, int>, ghost now: Time)
      ensures Valid() && Abstract() == World(map[], [Version(now, balances)])
    {
      cache, table, versions := map[], balances, [Version(now, balances)];
    }

    method InvalidateStockBalanceCache()
      modifies this`cache
      ensures cache == map[]
    {
      cache := map[];
    }

    /** _readBalanceCache: an expired entry is deleted. */
    method ReadBalanceCache(k: Key, now: Time) returns (hit: Option<int>)
      modifies this`cache
      ensures hit == ReadCache(old(cache), k, now)
      ensures hit.Some? <==> CacheKey(k) in old(cache) && now <= old(cache)[CacheKey(k)].at + 30_000
      ensures hit.Some? ==> hit.value == old(cache)[CacheKey(k)].quantity
      ensures cache == if hit.Some? then old(cache) else old(cache) - {CacheKey(k)}
    {
      if CacheKey(k) !in cache {
        return None;
      }
      if now - cache[CacheKey(k)].at > TTL {
        cache := cache - {CacheKey(k)};
        return None;
      }
      return Some(cache[CacheKey(k)].quantity);
    }

    method WriteBalanceCache(k: Key, quantity: int, now: Time)
      modifies this`cache
      ensures cache == old(cache)[CacheKey(k) := Hit(quantity, now)]
    {
      cache := cache[CacheKey(k) := Hit(quantity, now)];
    }

    /** getStockBalance (AVAILABLE) and getStockBalanceForBucket. */
    method GetStockBalance(k: Key, now: Time) returns (quantity: int)
      requires Valid()
      modifies this`cache
      ensures Valid()
      ensures quantity == Answer(old(Abstract()), k, now)
      ensures Abstract() == Next(old(Abstract()), now, ReadBalance(k))
    {
      var hit := ReadBalanceCache(k, now);
      if hit.Some? {
        return hit.value;
      }
      quantity := Quantity(table, k);
      WriteBalanceCache(k, quantity, now);
      assert cache == old(cache)[CacheKey(k) := Hit(quantity, now)];
    }

    /** The AVAILABLE rows of a store, in some order. */
    method SelectStoreRows(store: string) returns (rows: seq<Key>)
      ensures NoDuplicates(rows)
      ensures forall k :: k in rows <==> k in table && k.store == store && k.bucket == Available
    {
      rows := [];
      var left := set k | k in table && k.store == store && k.bucket == Available;
      while left != {}
        invariant NoDuplicates(rows)
        invariant forall k :: k in rows || k in left <==> k in table && k.store == store && k.bucket == Available
        invariant forall k <- rows :: k !in left
        decreases left
      {
        var k :| k in left;
        rows, left := rows + [k], left - {k};
      }
    }

    /** getStockBalancesForStore: every row it returns is written to the cache. */
    method GetStockBalancesForStore(store: string, now: Time) returns (balances: map<string, int>, ghost rows: seq<Key>)
      requires Valid()
      modifies this`cache
      ensures Valid()
      ensures forall k :: k in rows <==> k in table && k.store == store && k.bucket == Available
      ensures forall p :: p in balances <==> Key(store, p, Available) in table
      ensures forall p <- balances.Keys :: balances[p] == table[Key(store, p, Available)]
      ensures Abstract() == Next(old(Abstract()), now, ReadStore(store, rows))
    {
      var keys := SelectStoreRows(store);
      rows := keys;
      balances := RowsByProduct(table, store, keys);
      PrimeAll(keys, now);
    }

    method PrimeAll(keys: seq<Key>, now: Time)
      requires forall k <- keys :: k in table
      modifies this`cache
      ensures cache == Primed(old(cache), table, keys, now)
    {
      var i := 0;
      while i < |keys|
        invariant 0 <= i <= |keys|
        invariant cache == Primed(old(cache), table, keys[..i], now)
      {
        assert keys[..i + 1][..i] == keys[..i];
        WriteBalanceCache(keys[i], table[keys[i]], now);
        i := i + 1;
      }
      assert keys[..i] == keys;
    }

    /** A stock command of this service, or a pull, followed by the invalidation. */
    method MutateStock(balances: map<Key, int>, now: Time)
      requires Valid()
      modifies this
      ensures Valid() && Abstract() == Next(old(Abstract()), now, Mutate(balances))
    {
      table, versions := balances, versions + [Version(now, balances)];
      InvalidateStockBalanceCache();
    }

    /** A command of another service, such as a transfer: the cache stays as it is. */
    method MutateElsewhere(balances: map<Key, int>, now: Time)
      requires Valid()
      modifies this
      ensures Valid() && Abstract() == Next(old(Abstract()), now, WriteElsewhere(balances))
    {
      table, versions := balances, versions + [Version(now, balances)];
    }
  }
}
