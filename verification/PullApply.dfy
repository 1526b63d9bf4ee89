/** Applying a pulled snapshot: products, stores and balances in one transaction. */
module PullApply {
  import opened Types
  import opened Database

  /** A products or stores row. `code` is the unique column, a product's sku or a store's code; `rest` stands
      for the descriptive columns a write copies together. */
  datatype Row = Row(code: string, name: string, rest: string, active: bool, createdAt: Time, updatedAt: Time)

  type Rows = map<string, Row>

  datatype Kind = Product | Store

  datatype Incoming = Incoming(id: string, row: Row)

  // ---------------------------------------------------------------- placeholders

  predicate StartsWith(s: string, prefix: string) {
    |prefix| <= |s| && s[..|prefix|] == prefix
  }

  predicate HasPlaceholderCode(kind: Kind, code: string) {
    match kind
    case Product => StartsWith(code, "OFFLINE-") || StartsWith(code, "AUTO-")
    case Store => true
  }

  predicate HasPlaceholderName(kind: Kind, name: string) {
    match kind
    case Product => StartsWith(name, "OFFLINE-PROD-") || StartsWith(name, "Offline Item (")
    case Store => StartsWith(name, "Auto Store (")
  }

  /** is_placeholder_product, and the store check. */
  predicate IsPlaceholder(kind: Kind, code: string, name: string) {
    HasPlaceholderCode(kind, code) && HasPlaceholderName(kind, name)
  }

  // ---------------------------------------------------------------- one row

  /** A placeholder that meets a real local name: only the status columns are taken over. The test reads the
      local name beside the incoming code. */
  predicate KeepsLocal(kind: Kind, local: Row, incoming: Row) {
    IsPlaceholder(kind, incoming.code, incoming.name) && !IsPlaceholder(kind, incoming.code, local.name)
  }

  /** INSERT ... ON CONFLICT(id) DO UPDATE: every column but created_at. */
  function Overwrite(local: Option<Row>, incoming: Row): Row {
    if local.Some? then incoming.(createdAt := local.value.createdAt) else incoming
  }

  function StatusOnly(local: Row, incoming: Row): Row {
    local.(active := incoming.active, updatedAt := incoming.updatedAt)
  }

  function Merge(kind: Kind, local: Option<Row>, incoming: Row): Row {
    if local.Some? && KeepsLocal(kind, local.value, incoming) then StatusOnly(local.value, incoming)
    else Overwrite(local, incoming)
  }

  function Lookup(t: Rows, id: string): Option<Row> {
    if id in t then Some(t[id]) else None
  }

  /** The unique index: another row has this code. */
  predicate IsTaken(t: Rows, id: string, code: string) {
    exists other <- t.Keys :: other != id && t[other].code == code
  }

  function Upsert(kind: Kind, t: Rows, x: Incoming): Option<Rows> {
    if x.id in t && KeepsLocal(kind, t[x.id], x.row) then Some(t[x.id := StatusOnly(t[x.id], x.row)])
    else if IsTaken(t, x.id, x.row.code) then None
    else Some(t[x.id := Overwrite(Lookup(t, x.id), x.row)])
  }

  /** The rows of a list one after the other; the first violation of the unique index ends it. */
  function UpsertAll(kind: Kind, t: Rows, xs: seq<Incoming>): Option<Rows>
    decreases |xs|
  {
    if xs == [] then Some(t)
    else
      match UpsertAll(kind, t, xs[..|xs| - 1])
      case None => None
      case Some(u) => Upsert(kind, u, xs[|xs| - 1])
  }

  /** What a list makes of one row, whatever else is in the list. */
  function RowAfter(kind: Kind, local: Option<Row>, xs: seq<Incoming>, id: string): Option<Row>
    decreases |xs|
  {
    if xs == [] then local
    else
      var before, last := RowAfter(kind, local, xs[..|xs| - 1], id), xs[|xs| - 1];
      if last.id == id then Some(Merge(kind, before, last.row)) else before
  }

  /** A list that is applied changes each row by its own records only, in order. */
  lemma {:induction false} AppliedRowByRow(kind: Kind, t: Rows, xs: seq<Incoming>, id: string)
    requires UpsertAll(kind, t, xs).Some?
    ensures Lookup(UpsertAll(kind, t, xs).value, id) == RowAfter(kind, Lookup(t, id), xs, id)
    decreases |xs|
  {
    if xs != [] {
      AppliedRowByRow(kind, t, xs[..|xs| - 1], id);
    }
  }

  // ---------------------------------------------------------------- column by column

  /** The text is the prefix with something, or nothing, behind it. */
  ghost predicate Extends(s: string, prefix: string) {
    exists rest :: s == prefix + rest
  }

  /** What counts as a placeholder, by the text it starts with. */
  lemma PlaceholdersAre(code: string, name: string)
    ensures IsPlaceholder(Product, code, name) <==>
            && (Extends(code, "OFFLINE-") || Extends(code, "AUTO-"))
            && (Extends(name, "OFFLINE-PROD-") || Extends(name, "Offline Item ("))
    ensures IsPlaceholder(Store, code, name) <==> Extends(name, "Auto Store (")
  {
    PrefixMeans(code, "OFFLINE-");
    PrefixMeans(code, "AUTO-");
    PrefixMeans(name, "OFFLINE-PROD-");
    PrefixMeans(name, "Offline Item (");
    PrefixMeans(name, "Auto Store (");
  }

  lemma PrefixMeans(s: string, prefix: string)
    ensures StartsWith(s, prefix) <==> Extends(s, prefix)
  {
    if StartsWith(s, prefix) {
      assert s == prefix + s[|prefix|..];
    }
    if rest :| s == prefix + rest {
      assert s[..|prefix|] == prefix;
    }
  }

  /** A placeholder that meets a row with a real name. */
  predicate IsHeldBack(kind: Kind, local: Option<Row>, r: Row) {
    && local.Some? && HasPlaceholderCode(kind, r.code) && HasPlaceholderName(kind, r.name)
    && !HasPlaceholderName(kind, local.value.name)
  }

  /** One record: held back, it changes the two status columns; otherwise it sets every column but the creation
      time, and fails if another row has its code. */
  lemma RecordColumns(kind: Kind, t: Rows, x: Incoming)
    ensures var held := IsHeldBack(kind, Lookup(t, x.id), x.row);
      && (Upsert(kind, t, x) == None <==>
            !held && exists other <- t.Keys :: other != x.id && t[other].code == x.row.code)
      && (Upsert(kind, t, x).Some? ==>
            var u := Upsert(kind, t, x).value;
            && x.id in u && u == t[x.id := u[x.id]]
            && u[x.id].active == x.row.active && u[x.id].updatedAt == x.row.updatedAt
            && u[x.id].createdAt == (if x.id in t then t[x.id].createdAt else x.row.createdAt)
            && u[x.id].code == (if held then t[x.id].code else x.row.code)
            && u[x.id].name == (if held then t[x.id].name else x.row.name)
            && u[x.id].rest == (if held then t[x.id].rest else x.row.rest))
  {
  }

  /** The last record for a row. */
  function LastOwn(xs: seq<Incoming>, id: string): Option<Row>
    decreases |xs|
  {
    if xs == [] then None
    else if xs[|xs| - 1].id == id then Some(xs[|xs| - 1].row)
    else LastOwn(xs[..|xs| - 1], id)
  }

  /** The first record for a row. */
  function FirstOwn(xs: seq<Incoming>, id: string): Option<Row>
    decreases |xs|
  {
    if xs == [] then None
    else
      var before := FirstOwn(xs[..|xs| - 1], id);
      if before.Some? then before
      else if xs[|xs| - 1].id == id then Some(xs[|xs| - 1].row) else None
  }

  /** The last record for a row that is not held back by the name the row has by then. */
  function LastTaken(kind: Kind, local: Option<Row>, xs: seq<Incoming>, id: string): Option<Row>
    decreases |xs|
  {
    if xs == [] then None
    else
      var init, last := xs[..|xs| - 1], xs[|xs| - 1];
      if last.id == id && !IsHeldBack(kind, RowAfter(kind, local, init, id), last.row) then Some(last.row)
      else LastTaken(kind, local, init, id)
  }

  /** After a list a row has the code, name and other columns of its last record that was not held back, the status
      columns of its last record, and the creation time it had or first got. */
  lemma {:induction false} ListColumns(kind: Kind, local: Option<Row>, xs: seq<Incoming>, id: string)
    ensures RowAfter(kind, local, xs, id).Some? <==> local.Some? || LastOwn(xs, id).Some?
    ensures LastOwn(xs, id).Some? <==> FirstOwn(xs, id).Some?
    ensures RowAfter(kind, local, xs, id).Some? && LastTaken(kind, local, xs, id) == None ==> local.Some?
    ensures RowAfter(kind, local, xs, id).Some? ==>
      var a, taken, last := RowAfter(kind, local, xs, id).value, LastTaken(kind, local, xs, id), LastOwn(xs, id);
      && a.code == (if taken.Some? then taken.value.code else local.value.code)
      && a.name == (if taken.Some? then taken.value.name else local.value.name)
      && a.rest == (if taken.Some? then taken.value.rest else local.value.rest)
      && a.active == (if last.Some? then last.value.active else local.value.active)
      && a.updatedAt == (if last.Some? then last.value.updatedAt else local.value.updatedAt)
      && a.createdAt == (if local.Some? then local.value.createdAt else FirstOwn(xs, id).value.createdAt)
    decreases |xs|
  {
    if xs != [] {
      ListColumns(kind, local, xs[..|xs| - 1], id);
    }
  }

  // ---------------------------------------------------------------- never a downgrade

  /** The last record for a row that is no placeholder. */
  function LastReal(kind: Kind, xs: seq<Incoming>, id: string): Option<Row>
    decreases |xs|
  {
    if xs == [] then None
    else
      var last := xs[|xs| - 1];
      if last.id == id && !IsPlaceholder(kind, last.row.code, last.row.name) then Some(last.row)
      else LastReal(kind, xs[..|xs| - 1], id)
  }

  /** The row whose name should be shown: the last real record, or else the local row. */
  function Authority(kind: Kind, local: Row, xs: seq<Incoming>, id: string): Row {
    var r := LastReal(kind, xs, id);
    if r.Some? then r.value else local
  }

  /** A row with a real name takes the name of its authority, and ends with a placeholder's name exactly if
      the authority has one: a record with a placeholder's name and a real code. */
  lemma {:induction false} NameFollowsAuthority(kind: Kind, local: Row, xs: seq<Incoming>, id: string)
    requires !HasPlaceholderName(kind, local.name)
    ensures RowAfter(kind, Some(local), xs, id).Some?
    ensures var after, authority := RowAfter(kind, Some(local), xs, id).value, Authority(kind, local, xs, id);
      && (HasPlaceholderName(kind, after.name) <==> HasPlaceholderName(kind, authority.name))
      && (!HasPlaceholderName(kind, authority.name) ==> after.name == authority.name)
    decreases |xs|
  {
    if xs != [] {
      NameFollowsAuthority(kind, local, xs[..|xs| - 1], id);
    }
  }

  /** Stores are never downgraded: a store record with a placeholder's name is a placeholder. */
  lemma {:induction false} StoresKeepRealNames(local: Row, xs: seq<Incoming>, id: string)
    requires !HasPlaceholderName(Store, local.name)
    ensures !HasPlaceholderName(Store, Authority(Store, local, xs, id).name)
    decreases |xs|
  {
    if xs != [] {
      StoresKeepRealNames(local, xs[..|xs| - 1], id);
    }
  }

  /** A product can be: a record with a real sku and a placeholder's name opens the way for the next placeholder. */
  lemma MiscodedRecordLosesName(local: Row, id: string)
    requires !HasPlaceholderName(Product, local.name)
    ensures exists a: Incoming, b: Incoming ::
              && !IsPlaceholder(Product, a.row.code, a.row.name) && IsPlaceholder(Product, b.row.code, b.row.name)
              && RowAfter(Product, Some(local), [a, b], id) == Some(b.row.(createdAt := local.createdAt))
  {
    var miscoded := Row("SKU-1", "Offline Item (1)", "", true, 0, 0);
    var placeholder := Row("AUTO-1", "Offline Item (2)", "", true, 0, 0);
    var a, b := Incoming(id, miscoded), Incoming(id, placeholder);
    assert miscoded.name[..14] == "Offline Item (" && placeholder.name[..14] == "Offline Item (";
    assert placeholder.code[..5] == "AUTO-";
    assert miscoded.code[0] == 'S';
    assert [a, b][..1] == [a] && [a][..0] == [];
    assert RowAfter(Product, Some(local), [a], id) == Some(miscoded.(createdAt := local.createdAt));
    assert RowAfter(Product, Some(local), [a, b], id) == Some(placeholder.(createdAt := local.createdAt));
  }

  // ---------------------------------------------------------------- twice is once

  /** The creation time of a row never changes. */
  lemma {:induction false} KeepsCreation(kind: Kind, local: Row, xs: seq<Incoming>, id: string)
    ensures RowAfter(kind, Some(local), xs, id).Some?
    ensures RowAfter(kind, Some(local), xs, id).value.createdAt == local.createdAt
    decreases |xs|
  {
    if xs != [] {
      KeepsCreation(kind, local, xs[..|xs| - 1], id);
    }
  }

  /** A missing row stays missing only if the list does not name it. */
  lemma {:induction false} StaysMissing(kind: Kind, xs: seq<Incoming>, id: string, other: Option<Row>)
    requires RowAfter(kind, None, xs, id) == None
    ensures RowAfter(kind, other, xs, id) == other
    decreases |xs|
  {
    if xs != [] {
      StaysMissing(kind, xs[..|xs| - 1], id, other);
    }
  }

  predicate IsNamedForPlaceholder(kind: Kind, r: Option<Row>) {
    r.Some? ==> HasPlaceholderName(kind, r.value.name)
  }

  /** A list that leaves some row with a placeholder's name leaves every such row with one. */
  lemma {:induction false} StaysPlaceholder(kind: Kind, a: Option<Row>, b: Row, xs: seq<Incoming>, id: string)
    requires IsNamedForPlaceholder(kind, RowAfter(kind, a, xs, id)) && HasPlaceholderName(kind, b.name)
    ensures IsNamedForPlaceholder(kind, RowAfter(kind, Some(b), xs, id))
    decreases |xs|
  {
    if xs != [] {
      var init, last := xs[..|xs| - 1], xs[|xs| - 1];
      if last.id != id || IsPlaceholder(kind, last.row.code, last.row.name) {
        StaysPlaceholder(kind, a, b, init, id);
      }
    }
  }

  /** Equal but for the status columns. */
  predicate SameButStatus(a: Row, b: Row) {
    a == b.(active := a.active, updatedAt := a.updatedAt)
  }

  /** From anything that differs from its outcome in the status columns only, a list leads there again. */
  lemma {:induction false} ReturnsButStatus(kind: Kind, a: Option<Row>, w: Row, xs: seq<Incoming>, id: string)
    requires RowAfter(kind, a, xs, id).Some? && SameButStatus(w, RowAfter(kind, a, xs, id).value)
    ensures RowAfter(kind, Some(w), xs, id).Some?
    ensures SameButStatus(RowAfter(kind, Some(w), xs, id).value, RowAfter(kind, a, xs, id).value)
    decreases |xs|
  {
    if xs != [] {
      var init, last := xs[..|xs| - 1], xs[|xs| - 1];
      var x := RowAfter(kind, a, init, id);
      KeepsCreation(kind, w, init, id);
      if last.id != id {
        ReturnsButStatus(kind, a, w, init, id);
      } else if IsPlaceholder(kind, last.row.code, last.row.name) {
        if x == None {
          MissingFromMissing(kind, a, init, id);
          StaysMissing(kind, init, id, Some(w));
        } else if KeepsLocal(kind, x.value, last.row) {
          ReturnsButStatus(kind, a, w, init, id);
        } else {
          StaysPlaceholder(kind, a, w, init, id);
        }
      }
    }
  }

  lemma {:induction false} MissingFromMissing(kind: Kind, a: Option<Row>, xs: seq<Incoming>, id: string)
    requires RowAfter(kind, a, xs, id) == None
    ensures a == None
    decreases |xs|
  {
    if a.Some? {
      KeepsCreation(kind, a.value, xs, id);
    }
  }

  /** A second application of a list changes no row. */
  lemma {:induction false} RowIdempotent(kind: Kind, a: Option<Row>, xs: seq<Incoming>, id: string)
    ensures RowAfter(kind, RowAfter(kind, a, xs, id), xs, id) == RowAfter(kind, a, xs, id)
    decreases |xs|
  {
    if xs != [] {
      var init, last := xs[..|xs| - 1], xs[|xs| - 1];
      var x, y := RowAfter(kind, a, init, id), RowAfter(kind, a, xs, id);
      if last.id != id {
        RowIdempotent(kind, a, init, id);
      } else {
        KeepsCreation(kind, y.value, init, id);
        if IsPlaceholder(kind, last.row.code, last.row.name) {
          if x == None {
            MissingFromMissing(kind, a, init, id);
            StaysMissing(kind, init, id, y);
          } else if KeepsLocal(kind, x.value, last.row) {
            ReturnsButStatus(kind, a, y.value, init, id);
          } else {
            StaysPlaceholder(kind, a, y.value, init, id);
          }
        }
      }
    }
  }

  // ---------------------------------------------------------------- the unique index

  ghost predicate HasUniqueCodes(t: Rows) {
    forall i <- t.Keys, j <- t.Keys | i != j :: t[i].code != t[j].code
  }

  lemma {:induction false} KeepsUniqueCodes(kind: Kind, t: Rows, xs: seq<Incoming>)
    requires HasUniqueCodes(t) && UpsertAll(kind, t, xs).Some?
    ensures HasUniqueCodes(UpsertAll(kind, t, xs).value)
    ensures t.Keys <= UpsertAll(kind, t, xs).value.Keys
    decreases |xs|
  {
    if xs != [] {
      KeepsUniqueCodes(kind, t, xs[..|xs| - 1]);
    }
  }

  /** A second application that succeeds changes nothing; one that fails is rolled back. */
  lemma TwiceIsOnce(kind: Kind, t: Rows, xs: seq<Incoming>)
    requires UpsertAll(kind, t, xs).Some? && UpsertAll(kind, UpsertAll(kind, t, xs).value, xs).Some?
    ensures UpsertAll(kind, UpsertAll(kind, t, xs).value, xs) == UpsertAll(kind, t, xs)
  {
    var u := UpsertAll(kind, t, xs).value;
    var v := UpsertAll(kind, u, xs).value;
    forall id
      ensures Lookup(v, id) == Lookup(u, id)
    {
      AppliedRowByRow(kind, t, xs, id);
      AppliedRowByRow(kind, u, xs, id);
      RowIdempotent(kind, Lookup(t, id), xs, id);
    }
    SameLookups(u, v);
  }

  lemma SameLookups(u: Rows, v: Rows)
    requires forall id :: Lookup(v, id) == Lookup(u, id)
    ensures u == v
  {
    forall id
      ensures id in u <==> id in v
      ensures id in u ==> u[id] == v[id]
    {
      assert Lookup(v, id) == Lookup(u, id);
    }
  }

  ghost predicate NamesEachOnce(xs: seq<Incoming>) {
    forall i, j | 0 <= i < j < |xs| :: xs[i].id != xs[j].id
  }

  lemma {:induction false} NotNamed(kind: Kind, local: Option<Row>, xs: seq<Incoming>, id: string)
    requires forall x <- xs :: x.id != id
    ensures RowAfter(kind, local, xs, id) == local
    decreases |xs|
  {
    if xs != [] {
      NotNamed(kind, local, xs[..|xs| - 1], id);
    }
  }

  /** Every record of a list without repeats is in effect afterwards. */
  lemma {:induction false} InEffect(kind: Kind, t: Rows, xs: seq<Incoming>, x: Incoming)
    requires NamesEachOnce(xs) && x in xs && UpsertAll(kind, t, xs).Some?
    ensures x.id in UpsertAll(kind, t, xs).value
    ensures UpsertAll(kind, t, xs).value[x.id] == Merge(kind, Lookup(t, x.id), x.row)
    decreases |xs|
  {
    var init, last := xs[..|xs| - 1], xs[|xs| - 1];
    if x == last {
      AppliedRowByRow(kind, t, init, x.id);
      NotNamed(kind, Lookup(t, x.id), init, x.id);
    } else {
      InEffect(kind, t, init, x);
      var i :| 0 <= i < |xs| && xs[i] == x;
      assert x.id != last.id;
    }
  }

  lemma UpsertAgain(kind: Kind, u: Rows, local: Option<Row>, x: Incoming)
    requires HasUniqueCodes(u) && x.id in u && u[x.id] == Merge(kind, local, x.row)
    ensures Upsert(kind, u, x) == Some(u)
  {
    assert u[x.id := u[x.id]] == u;
    if local.Some? && KeepsLocal(kind, local.value, x.row) {
      assert StatusOnly(u[x.id], x.row) == u[x.id];
    } else {
      assert !KeepsLocal(kind, u[x.id], x.row);
      assert Overwrite(Lookup(u, x.id), x.row) == u[x.id];
    }
  }

  /** A list without repeats can always be applied again. */
  lemma {:induction false} PrefixAgain(kind: Kind, t: Rows, xs: seq<Incoming>, n: nat)
    requires HasUniqueCodes(t) && NamesEachOnce(xs) && UpsertAll(kind, t, xs).Some? && n <= |xs|
    ensures UpsertAll(kind, UpsertAll(kind, t, xs).value, xs[..n]) == UpsertAll(kind, t, xs)
    decreases n
  {
    var u := UpsertAll(kind, t, xs).value;
    if n > 0 {
      PrefixAgain(kind, t, xs, n - 1);
      assert xs[..n][..n - 1] == xs[..n - 1];
      KeepsUniqueCodes(kind, t, xs);
      InEffect(kind, t, xs, xs[n - 1]);
      UpsertAgain(kind, u, Lookup(t, xs[n - 1].id), xs[n - 1]);
    }
  }

  /** With repeats it may not be: here the second application fails (and is rolled back). */
  lemma RepeatsMayFailTheSecondTime(a: string, b: string, first: Row, second: Row)
    requires a != b && first.code != second.code
    requires !IsPlaceholder(Product, first.code, first.name) && !IsPlaceholder(Product, second.code, second.name)
    ensures var xs := [Incoming(a, first), Incoming(a, second), Incoming(b, first)];
      var once := UpsertAll(Product, map[], xs);
      once.Some? && UpsertAll(Product, once.value, xs) == None
  {
    var x, y, z := Incoming(a, first), Incoming(a, second), Incoming(b, first);
    var xs := [x, y, z];
    assert xs[..2] == [x, y] && [x, y][..1] == [x] && [x][..0] == [];
    var t1: Rows := map[a := first];
    assert UpsertAll(Product, map[], [x]) == Some(t1);
    var t2 := t1[a := Overwrite(Some(first), second)];
    assert UpsertAll(Product, map[], [x, y]) == Some(t2);
    var t3 := t2[b := first];
    assert UpsertAll(Product, map[], xs) == Some(t3);
    assert b in t3 && t3[b].code == first.code;
    assert IsTaken(t3, a, first.code);
    assert UpsertAll(Product, t3, [x]) == None;
    assert UpsertAll(Product, t3, [x, y]) == None;
  }

  // ---------------------------------------------------------------- the single-row commands

  /** upsert_product_from_server and upsert_store_from_server: the local row is judged by its own sku, and a
      real store whose code is already used updates the row that uses it. */
  ghost function UpsertAlone(kind: Kind, t: Rows, x: Incoming): Option<Rows> {
    if IsPlaceholder(kind, x.row.code, x.row.name) && x.id in t && !IsPlaceholder(kind, t[x.id].code, t[x.id].name) then
      Some(t[x.id := StatusOnly(t[x.id], x.row)])
    else if IsTaken(t, x.id, x.row.code) then
      if kind == Store && !IsPlaceholder(kind, x.row.code, x.row.name) then
        var other :| other in t && other != x.id && t[other].code == x.row.code;
        Some(t[other := t[other].(name := x.row.name, rest := x.row.rest, active := x.row.active,
                                  updatedAt := x.row.updatedAt)])
      else None
    else Some(t[x.id := Overwrite(Lookup(t, x.id), x.row)])
  }

  /** A local product with a real sku and a placeholder's name, met by a placeholder. */
  predicate IsMiscoded(kind: Kind, t: Rows, x: Incoming) {
    && IsPlaceholder(kind, x.row.code, x.row.name)
    && x.id in t && HasPlaceholderName(kind, t[x.id].name) && !HasPlaceholderCode(kind, t[x.id].code)
  }

  /** A real store that arrives under another id than the local store with its code. */
  predicate IsHealedElsewhere(kind: Kind, t: Rows, x: Incoming) {
    kind == Store && !IsPlaceholder(kind, x.row.code, x.row.name) && IsTaken(t, x.id, x.row.code)
  }

  /** The single-row command heals the local row with the store's code: it takes over name, address and status and
      keeps its own id, code and creation time, and no row is added. */
  lemma HealedStoreKeepsItsId(t: Rows, x: Incoming)
    requires IsHealedElsewhere(Store, t, x)
    ensures exists id <- t.Keys ::
      && id != x.id && t[id].code == x.row.code
      && UpsertAlone(Store, t, x)
         == Some(t[id := Row(x.row.code, x.row.name, x.row.rest, x.row.active, t[id].createdAt, x.row.updatedAt)])
  {
  }

  /** The batch does what the single-row command does, with exactly two exceptions. */
  lemma BatchMatchesSingle(kind: Kind, t: Rows, x: Incoming)
    ensures Upsert(kind, t, x) == UpsertAlone(kind, t, x) <==> !IsMiscoded(kind, t, x) && !IsHealedElsewhere(kind, t, x)
  {
    if IsMiscoded(kind, t, x) {
      assert UpsertAlone(kind, t, x) == Some(t[x.id := StatusOnly(t[x.id], x.row)]);
      assert UpsertAlone(kind, t, x).value[x.id].code != x.row.code;
      if Upsert(kind, t, x).Some? {
        assert Upsert(kind, t, x).value[x.id].code == x.row.code;
      }
    }
  }

  // ---------------------------------------------------------------- the whole snapshot

  datatype Local = Local(products: Rows, stores: Rows, db: Db)

  datatype Snapshot = Snapshot(products: seq<Incoming>, stores: seq<Incoming>, balances: seq<(Key, int)>)

  /** The foreign keys of the balance rows. */
  predicate HasParents(products: Rows, stores: Rows, rows: seq<(Key, int)>) {
    forall r <- rows :: r.0.product in products && r.0.store in stores
  }

  /** What a snapshot leads to, or `None` when a statement fails. */
  function Apply(s: Local, now: Time, x: Snapshot): Option<Local> {
    match UpsertAll(Product, s.products, x.products)
    case None => None
    case Some(products) =>
      match UpsertAll(Store, s.stores, x.stores)
      case None => None
      case Some(stores) =>
        if HasParents(products, stores, x.balances)
        then Some(Local(products, stores, PullBalances(s.db, now, x.balances)))
        else None
  }

  function Applied(s: Local, now: Time, x: Snapshot): Local {
    var r := Apply(s, now, x);
    if r.Some? then r.value else s
  }

  /** A snapshot that is applied has a product and a store row for each of its balances, and one that has the rows
      it needs can fail only on a code that is used twice. */
  lemma AppliedBalancesHaveParents(s: Local, now: Time, x: Snapshot)
    ensures Apply(s, now, x).Some? ==>
      forall r <- x.balances ::
        r.0.product in Apply(s, now, x).value.products && r.0.store in Apply(s, now, x).value.stores
    ensures Apply(s, now, x) == None <==>
      || UpsertAll(Product, s.products, x.products) == None
      || UpsertAll(Store, s.stores, x.stores) == None
      || exists r <- x.balances :: r.0.product !in UpsertAll(Product, s.products, x.products).value
                                   || r.0.store !in UpsertAll(Store, s.stores, x.stores).value
  {
  }

  /** The balances a list leaves: the last one listed for each key. */
  function LastListed(rows: seq<(Key, int)>): map<Key, int>
    decreases |rows|
  {
    if rows == [] then map[] else map[rows[0].0 := rows[0].1] + LastListed(rows[1..])
  }

  function StampsOf(m: map<Key, int>, day: int): map<SnapKey, int> {
    map k | k in m :: SnapKey(k, day) := m[k]
  }

  lemma SetThenAdd<K, V>(m: map<K, V>, k: K, v: V, rest: map<K, V>)
    ensures m[k := v] + rest == m + (map[k := v] + rest)
  {
  }

  lemma AddTwice<K, V>(m: map<K, V>, l: map<K, V>)
    ensures m + l + l == m + l
  {
  }

  lemma StampsOfSet(k: Key, q: int, rest: map<Key, int>, day: int)
    ensures StampsOf(map[k := q] + rest, day) == map[SnapKey(k, day) := q] + StampsOf(rest, day)
  {
  }

  lemma {:induction false} PullClosedForm(s: Db, now: Time, rows: seq<(Key, int)>)
    ensures PullBalances(s, now, rows)
            == s.(balances := s.balances + LastListed(rows),
                  snapshots := s.snapshots + StampsOf(LastListed(rows), Day(now)))
    decreases |rows|
  {
    if rows == [] {
      assert LastListed(rows) == map[] && StampsOf(map[], Day(now)) == map[];
      assert s.balances + map[] == s.balances && s.snapshots + map[] == s.snapshots;
    } else {
      var (k, q) := rows[0];
      var rest := LastListed(rows[1..]);
      PullClosedForm(SetBalance(s, now, k, q), now, rows[1..]);
      SetThenAdd(s.balances, k, q, rest);
      SetThenAdd(s.snapshots, SnapKey(k, Day(now)), q, StampsOf(rest, Day(now)));
      StampsOfSet(k, q, rest, Day(now));
    }
  }

  lemma PullTwice(s: Db, now: Time, rows: seq<(Key, int)>)
    ensures PullBalances(PullBalances(s, now, rows), now, rows) == PullBalances(s, now, rows)
  {
    PullClosedForm(s, now, rows);
    PullClosedForm(PullBalances(s, now, rows), now, rows);
    AddTwice(s.balances, LastListed(rows));
    AddTwice(s.snapshots, StampsOf(LastListed(rows), Day(now)));
  }

  /** Applying a snapshot twice leaves what applying it once does, whatever it holds. */
  lemma ApplyTwice(s: Local, now: Time, x: Snapshot)
    ensures Applied(Applied(s, now, x), now, x) == Applied(s, now, x)
  {
    var t := Applied(s, now, x);
    if Apply(s, now, x).Some? && Apply(t, now, x).Some? {
      TwiceIsOnce(Product, s.products, x.products);
      TwiceIsOnce(Store, s.stores, x.stores);
      PullTwice(s.db, now, x.balances);
    }
  }

  /** A snapshot without repeated ids can be applied again and again. */
  lemma ApplyAgainSucceeds(s: Local, now: Time, x: Snapshot)
    requires HasUniqueCodes(s.products) && HasUniqueCodes(s.stores)
    requires NamesEachOnce(x.products) && NamesEachOnce(x.stores)
    requires Apply(s, now, x).Some?
    ensures Apply(Applied(s, now, x), now, x) == Apply(s, now, x)
  {
    PrefixAgain(Product, s.products, x.products, |x.products|);
    PrefixAgain(Store, s.stores, x.stores, |x.stores|);
    assert x.products[..|x.products|] == x.products && x.stores[..|x.stores|] == x.stores;
    PullTwice(s.db, now, x.balances);
  }

  /** Whatever a snapshot holds, a store with a real name keeps it or takes the last real one sent, and so does
      a product unless the last real record sent for it has a placeholder's name. */
  lemma SnapshotKeepsRealNames(s: Local, now: Time, x: Snapshot, id: string)
    ensures Apply(s, now, x) == None ==> Applied(s, now, x) == s
    ensures id in s.stores && !HasPlaceholderName(Store, s.stores[id].name) ==>
              && id in Applied(s, now, x).stores
              && Applied(s, now, x).stores[id].name
                 == if Apply(s, now, x).Some? then Authority(Store, s.stores[id], x.stores, id).name
                    else s.stores[id].name
    ensures id in s.products && !HasPlaceholderName(Product, s.products[id].name) && Apply(s, now, x).Some? ==>
              var authority := Authority(Product, s.products[id], x.products, id);
              && id in Applied(s, now, x).products
              && (HasPlaceholderName(Product, Applied(s, now, x).products[id].name) <==>
                  HasPlaceholderName(Product, authority.name))
              && (!HasPlaceholderName(Product, authority.name) ==>
                    Applied(s, now, x).products[id].name == authority.name)
  {
    if Apply(s, now, x).Some? {
      AppliedRowByRow(Store, s.stores, x.stores, id);
      AppliedRowByRow(Product, s.products, x.products, id);
      if id in s.stores && !HasPlaceholderName(Store, s.stores[id].name) {
        NameFollowsAuthority(Store, s.stores[id], x.stores, id);
        StoresKeepRealNames(s.stores[id], x.stores, id);
      }
      if id in s.products && !HasPlaceholderName(Product, s.products[id].name) {
        NameFollowsAuthority(Product, s.products[id], x.products, id);
      }
    }
  }

  // ---------------------------------------------------------------- the command

  /** A failed prefix fails the list. */
  lemma {:induction false} PrefixFails(kind: Kind, t: Rows, xs: seq<Incoming>, n: nat)
    requires n <= |xs| && UpsertAll(kind, t, xs[..n]) == None
    ensures UpsertAll(kind, t, xs) == None
    decreases |xs| - n
  {
    if n < |xs| {
      assert xs[..n + 1][..n] == xs[..n];
      PrefixFails(kind, t, xs, n + 1);
    } else {
      assert xs[..n] == xs;
    }
  }

  /** The database file, reached by one connection. */
  class SyncTarget {
    var products: Rows
    var stores: Rows
    var db: Db

    function State(): Local
      reads this
    {
      Local(products, stores, db)
    }

    constructor (s: Local)
      ensures State() == s
    {
      products, stores, db := s.products, s.stores, s.db;
    }

    /** The statements for one list against the rows staged in the transaction. */
    static method UpsertRows(kind: Kind, t: Rows, xs: seq<Incoming>) returns (staged: Option<Rows>)
      ensures staged == UpsertAll(kind, t, xs)
    {
      var u := t;
      var i := 0;
      while i < |xs|
        invariant 0 <= i <= |xs|
        invariant UpsertAll(kind, t, xs[..i]) == Some(u)
      {
        var x := xs[i];
        assert xs[..i + 1][..i] == xs[..i];
        if x.id in u && KeepsLocal(kind, u[x.id], x.row) {
          u := u[x.id := u[x.id].(active := x.row.active, updatedAt := x.row.updatedAt)];
        } else if IsTaken(u, x.id, x.row.code) {
          PrefixFails(kind, t, xs, i + 1);
          return None;
        } else if x.id in u {
          u := u[x.id := x.row.(createdAt := u[x.id].createdAt)];
        } else {
          u := u[x.id := x.row];
        }
        i := i + 1;
      }
      assert xs[..i] == xs;
      return Some(u);
    }

    /** apply_sync_pull: everything is staged, and committed only if every statement succeeds. */
    method ApplySyncPull(now: Time, x: Snapshot) returns (ok: bool)
      modifies this
      ensures match Apply(old(State()), now, x)
              case None => !ok && State() == old(State())
              case Some(t) => ok && State() == t
    {
      var p := UpsertRows(Product, products, x.products);
      if p.None? {
        return false;
      }
      var s := UpsertRows(Store, stores, x.stores);
      if s.None? {
        return false;
      }
      var staged := db;
      var i := 0;
      while i < |x.balances|
        invariant 0 <= i <= |x.balances|
        invariant State() == old(State())
        invariant HasParents(p.value, s.value, x.balances[..i])
        invariant PullBalances(staged, now, x.balances[i..]) == PullBalances(db, now, x.balances)
      {
        var (k, q) := x.balances[i];
        if k.product !in p.value || k.store !in s.value {
          assert x.balances[i] in x.balances;
          return false;
        }
        assert x.balances[i..][1..] == x.balances[i + 1..];
        assert x.balances[..i + 1] == x.balances[..i] + [x.balances[i]];
        staged := SetBalance(staged, now, k, q);
        i := i + 1;
      }
      assert x.balances[..i] == x.balances;
      products, stores, db := p.value, s.value, staged;
      return true;
    }
  }
}
