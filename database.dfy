/** The consjob table of backend/database.py: the per-item upsert loop of
    `save_consjob_data` with the table's column widths and its unique key,
    and the `created_at DESC` listing. The table is a value held by the
    `Database` object; reaching the pool is a boolean parameter. */
module Database {
  import opened Wrappers
  import opened JsonValues
  import opened Errors

  type Instant = int

  /** UNIQUE(tracking_number, order_id, warehouse); None is SQL NULL. */
  datatype Key = Key(trackingNumber: Option<string>, orderId: Option<string>, warehouse: Option<string>)

  datatype Payload = Payload(zone: Option<string>, driverId: Option<string>,
                             currentStatus: Option<string>, nonupdatedStartTimestamp: Option<string>)

  /** One converted item: the seven parameters of the INSERT. */
  datatype Record = Record(key: Key, payload: Payload)

  datatype Row = Row(id: nat, key: Key, payload: Payload, createdAt: Instant, updatedAt: Instant)

  /** The table's rows in insertion order, and the next SERIAL value. */
  datatype Table = Table(rows: seq<Row>, nextId: nat)

  const EmptyTable: Table := Table([], 1)

  /** Postgres treats NULLs as distinct: a key with a NULL never conflicts. */
  predicate Comparable(k: Key) {
    k.trackingNumber.Some? && k.orderId.Some? && k.warehouse.Some?
  }

  /** Ids are positive, increasing and below the next SERIAL value, and no two
      rows share a key without NULLs. */
  predicate WellFormed(t: Table) {
    && 1 <= t.nextId
    && (forall i :: 0 <= i < |t.rows| ==> 1 <= t.rows[i].id < t.nextId)
    && (forall i, j :: 0 <= i < j < |t.rows| ==> t.rows[i].id < t.rows[j].id)
    && (forall i, j :: 0 <= i < j < |t.rows| && Comparable(t.rows[i].key) ==> t.rows[i].key != t.rows[j].key)
  }

  /** Storing a string in VARCHAR(width): too long is an error unless the
      excess characters are all spaces, which are then cut off. */
  function FitVarchar(s: string, width: nat): Option<string> {
    if |s| <= width then Some(s)
    else if forall i :: width <= i < |s| ==> s[i] == ' ' then Some(s[..width])
    else None
  }

  /** `item.get(name)` bound to a VARCHAR(width) parameter: missing or JSON
      null is NULL, a string is fitted, any other value fails to encode. The
      outer None is a failed statement. */
  function Column(fields: map<string, Json>, name: string, width: nat): Option<Option<string>> {
    match Lookup(fields, name)
    case None => Some(None)
    case Some(JNull) => Some(None)
    case Some(JStr(s)) =>
      (match FitVarchar(s, width)
       case Some(v) => Some(Some(v))
       case None => None)
    case Some(_) => None
  }

  /** A stored column value fits its width and is a prefix of the string
      sent; a string that fits is stored whole, a longer one only when all
      of the excess is spaces; NULL for a missing key or JSON null; any
      other JSON value fails. */
  lemma ColumnEffect(fields: map<string, Json>, name: string, width: nat)
    ensures var r := Column(fields, name, width);
            && (name !in fields || fields[name].JNull? ==> r == Some(None))
            && (name in fields && !fields[name].JNull? && !fields[name].JStr? ==> r.None?)
            && (name in fields && fields[name].JStr? ==>
                  var s := fields[name].s;
                  && (|s| <= width ==> r == Some(Some(s)))
                  && (|s| > width ==> (r.Some? <==> forall i :: width <= i < |s| ==> s[i] == ' '))
                  && (|s| > width && r.Some? ==> r == Some(Some(s[..width]))))
            && (r.Some? && r.value.Some? ==> |r.value.value| <= width)
  {
  }

  /** The parameters of the INSERT for one item, or None where the statement
      fails: `.get` on a non-object, or a column that cannot be stored. */
  function ToRecord(item: Json): (r: Option<Record>)
  {
    match item
    case JObj(f) =>
      var tn := Column(f, "tracking_number", 255);
      var oi := Column(f, "order_id", 255);
      var wh := Column(f, "warehouse", 50);
      var zn := Column(f, "zone", 50);
      var dr := Column(f, "driver_id", 100);
      var cs := Column(f, "current_status", 100);
      var ts := Column(f, "nonupdated_start_timestamp", 100);
      if tn.Some? && oi.Some? && wh.Some? && zn.Some? && dr.Some? && cs.Some? && ts.Some?
      then Some(Record(Key(tn.value, oi.value, wh.value), Payload(zn.value, dr.value, cs.value, ts.value)))
      else None
    case _ => None
  }

  /** What fits: every stored string respects its column's width. */
  lemma ToRecordWidths(item: Json)
    requires ToRecord(item).Some?
    ensures var r := ToRecord(item).value;
            && item.JObj?
            && (r.key.trackingNumber.Some? ==> |r.key.trackingNumber.value| <= 255)
            && (r.key.orderId.Some? ==> |r.key.orderId.value| <= 255)
            && (r.key.warehouse.Some? ==> |r.key.warehouse.value| <= 50)
            && (r.payload.zone.Some? ==> |r.payload.zone.value| <= 50)
            && (r.payload.driverId.Some? ==> |r.payload.driverId.value| <= 100)
            && (r.payload.currentStatus.Some? ==> |r.payload.currentStatus.value| <= 100)
            && (r.payload.nonupdatedStartTimestamp.Some? ==> |r.payload.nonupdatedStartTimestamp.value| <= 100)
  {
    var f := item.fields;
    ColumnEffect(f, "tracking_number", 255);
    ColumnEffect(f, "order_id", 255);
    ColumnEffect(f, "warehouse", 50);
    ColumnEffect(f, "zone", 50);
    ColumnEffect(f, "driver_id", 100);
    ColumnEffect(f, "current_status", 100);
    ColumnEffect(f, "nonupdated_start_timestamp", 100);
  }

  /** The first row holding key `k`. */
  function FindKey(rows: seq<Row>, k: Key): (r: Option<nat>)
    ensures r.Some? ==> r.value < |rows| && rows[r.value].key == k
    ensures r.None? <==> forall i :: 0 <= i < |rows| ==> rows[i].key != k
  {
    if rows == [] then None
    else if rows[0].key == k then Some(0)
    else match FindKey(rows[1..], k)
         case Some(i) => Some(i + 1)
         case None => None
  }

  /** The INSERT ... ON CONFLICT DO UPDATE of one record at `now`. The SERIAL
      default is drawn on both paths. */
  function Upsert(t: Table, rec: Record, now: Instant): Table {
    var found := if Comparable(rec.key) then FindKey(t.rows, rec.key) else None;
    match found
    case Some(i) =>
      Table(t.rows[i := t.rows[i].(payload := rec.payload, updatedAt := now)], t.nextId + 1)
    case None =>
      Table(t.rows + [Row(t.nextId, rec.key, rec.payload, now, now)], t.nextId + 1)
  }

  /** A conflicting record updates the payload and `updated_at` of its row and
      keeps its id, key and `created_at`; any other record is appended as a
      new row with the next id. Nothing else changes. */
  lemma UpsertEffect(t: Table, rec: Record, now: Instant)
    requires WellFormed(t)
    ensures var u := Upsert(t, rec, now);
            && WellFormed(u)
            && u.nextId == t.nextId + 1
            && (Comparable(rec.key) && FindKey(t.rows, rec.key).Some? ==>
                  var i := FindKey(t.rows, rec.key).value;
                  u.rows == t.rows[i := Row(t.rows[i].id, rec.key, rec.payload, t.rows[i].createdAt, now)])
            && (!Comparable(rec.key) || FindKey(t.rows, rec.key).None? ==>
                  u.rows == t.rows + [Row(t.nextId, rec.key, rec.payload, now, now)])
  {
    if Comparable(rec.key) && FindKey(t.rows, rec.key).Some? {
      UpsertUpdates(t, rec, now, FindKey(t.rows, rec.key).value);
    } else {
      UpsertAppends(t, rec, now);
    }
  }

  /** The conflict path keeps the table well formed: ids and keys stay. */
  lemma UpsertUpdates(t: Table, rec: Record, now: Instant, i: nat)
    requires WellFormed(t) && Comparable(rec.key) && FindKey(t.rows, rec.key) == Some(i)
    ensures Upsert(t, rec, now).rows == t.rows[i := Row(t.rows[i].id, rec.key, rec.payload, t.rows[i].createdAt, now)]
    ensures WellFormed(Upsert(t, rec, now))
  {
    var u := Upsert(t, rec, now);
    assert forall j :: 0 <= j < |u.rows| ==> u.rows[j].id == t.rows[j].id;
    assert forall j :: 0 <= j < |u.rows| ==> u.rows[j].key == t.rows[j].key;
  }

  /** The insert path keeps the table well formed: the new id is the largest
      and a comparable key was not there before. */
  lemma UpsertAppends(t: Table, rec: Record, now: Instant)
    requires WellFormed(t) && (!Comparable(rec.key) || FindKey(t.rows, rec.key).None?)
    ensures Upsert(t, rec, now).rows == t.rows + [Row(t.nextId, rec.key, rec.payload, now, now)]
    ensures WellFormed(Upsert(t, rec, now))
  {
    var u := Upsert(t, rec, now);
    var n := |t.rows|;
    assert forall j :: 0 <= j < n ==> u.rows[j] == t.rows[j];
    if Comparable(rec.key) {
      assert forall j :: 0 <= j < n ==> t.rows[j].key != rec.key;
    }
  }

  /** The loop of `save_consjob_data` over `items`: the table after each
      statement, and how many statements succeeded. */
  function SaveAll(t: Table, items: seq<Json>, now: Instant): (Table, nat)
    decreases |items|
  {
    if items == [] then (t, 0)
    else
      var (before, count) := SaveAll(t, items[..|items| - 1], now);
      match ToRecord(items[|items| - 1])
      case Some(rec) => (Upsert(before, rec, now), count + 1)
      case None => (before, count)
  }

  /** One more item runs one more statement on the table the others left. */
  lemma SaveAllSnoc(t: Table, items: seq<Json>, i: int, now: Instant)
    requires 0 <= i < |items|
    ensures SaveAll(t, items[..i + 1], now)
            == var (before, count) := SaveAll(t, items[..i], now);
               match ToRecord(items[i])
               case Some(rec) => (Upsert(before, rec, now), count + 1)
               case None => (before, count)
  {
    assert items[..i + 1][..i] == items[..i];
  }


  /** The records of the items whose statement succeeds, in item order. */
  function Accepted(items: seq<Json>): (recs: seq<Record>)
    ensures |recs| <= |items|
  {
    if items == [] then []
    else
      var recs := Accepted(items[..|items| - 1]);
      match ToRecord(items[|items| - 1])
      case Some(rec) => recs + [rec]
      case None => recs
  }

  /** The returned count is the number of items whose statement succeeded,
      whatever the table held before; so it never exceeds the number of items. */
  lemma {:induction false} SaveCount(t: Table, items: seq<Json>, now: Instant)
    ensures SaveAll(t, items, now).1 == |Accepted(items)| <= |items|
    decreases |items|
  {
    if items != [] {
      SaveCount(t, items[..|items| - 1], now);
    }
  }

  /** Saving keeps the table well formed. */
  lemma {:induction false} SaveWellFormed(t: Table, items: seq<Json>, now: Instant)
    requires WellFormed(t)
    ensures WellFormed(SaveAll(t, items, now).0)
    decreases |items|
  {
    if items != [] {
      SaveWellFormed(t, items[..|items| - 1], now);
      var before := SaveAll(t, items[..|items| - 1], now).0;
      var rec := ToRecord(items[|items| - 1]);
      if rec.Some? {
        UpsertEffect(before, rec.value, now);
      }
    }
  }

  /** `row` is `old` with possibly a new payload and `updated_at`. */
  predicate SameIdentity(old_: Row, row: Row) {
    row.id == old_.id && row.key == old_.key && row.createdAt == old_.createdAt
  }

  /** Nothing is deleted: every earlier row keeps its place, id, key and
      `created_at`; a row whose key no accepted record carries (or carries
      with a NULL) is untouched. */
  lemma {:induction false} SaveKeepsRows(t: Table, items: seq<Json>, now: Instant)
    requires WellFormed(t)
    ensures var u := SaveAll(t, items, now).0;
            && |t.rows| <= |u.rows|
            && (forall i :: 0 <= i < |t.rows| ==> SameIdentity(t.rows[i], u.rows[i]))
            && (forall i :: 0 <= i < |t.rows| && (!Comparable(t.rows[i].key) || !KeyAccepted(items, t.rows[i].key))
                  ==> u.rows[i] == t.rows[i])
    decreases |items|
  {
    if items != [] {
      var init := items[..|items| - 1];
      SaveKeepsRows(t, init, now);
      SaveWellFormed(t, init, now);
      var before := SaveAll(t, init, now).0;
      var rec := ToRecord(items[|items| - 1]);
      if rec.Some? {
        UpsertEffect(before, rec.value, now);
        forall i | 0 <= i < |t.rows| && (!Comparable(t.rows[i].key) || !KeyAccepted(items, t.rows[i].key))
          ensures SaveAll(t, items, now).0.rows[i] == t.rows[i]
        {
          assert KeyAccepted(items, t.rows[i].key) == (KeyAccepted(init, t.rows[i].key) || rec.value.key == t.rows[i].key);
        }
      } else {
        assert forall k :: KeyAccepted(items, k) == KeyAccepted(init, k);
      }
    }
  }

  /** Some item among `items` is stored with key `k`. */
  predicate KeyAccepted(items: seq<Json>, k: Key)
    decreases |items|
  {
    items != [] &&
    (KeyAccepted(items[..|items| - 1], k) ||
     (ToRecord(items[|items| - 1]).Some? && ToRecord(items[|items| - 1]).value.key == k))
  }

  /** The row holding key `k` in a table. */
  predicate KeyPresent(t: Table, k: Key) {
    exists i :: 0 <= i < |t.rows| && t.rows[i].key == k
  }

  /** The last stored item wins: after saving `items + [item]`, exactly one row
      carries the item's key (when it has no NULL), with the item's payload
      and `updated_at`. */
  lemma LastWriterWins(t: Table, items: seq<Json>, item: Json, now: Instant)
    requires WellFormed(t)
    requires ToRecord(item).Some? && Comparable(ToRecord(item).value.key)
    ensures var u := SaveAll(t, items + [item], now).0;
            var rec := ToRecord(item).value;
            exists i :: 0 <= i < |u.rows| && u.rows[i].key == rec.key
                        && u.rows[i].payload == rec.payload && u.rows[i].updatedAt == now
                        && forall j :: 0 <= j < |u.rows| && j != i ==> u.rows[j].key != rec.key
  {
    var all := items + [item];
    assert all[..|all| - 1] == items;
    SaveWellFormed(t, items, now);
    var before := SaveAll(t, items, now).0;
    var rec := ToRecord(item).value;
    UpsertEffect(before, rec, now);
    var u := Upsert(before, rec, now);
    assert u == SaveAll(t, all, now).0;
    var i := if FindKey(before.rows, rec.key).Some? then FindKey(before.rows, rec.key).value else |before.rows|;
    assert u.rows[i].key == rec.key;
    forall j | 0 <= j < |u.rows| && j != i ensures u.rows[j].key != rec.key {
      if j < i {
        assert u.rows[j].key != u.rows[i].key;
      } else {
        assert u.rows[i].key != u.rows[j].key;
      }
    }
  }

  /** Saving `a + b` is saving `a`, then saving `b` on the table that left. */
  lemma {:induction false} SaveAllAppend(t: Table, a: seq<Json>, b: seq<Json>, now: Instant)
    ensures SaveAll(t, a + b, now).0 == SaveAll(SaveAll(t, a, now).0, b, now).0
    decreases |b|
  {
    if b == [] {
      assert a + b == a;
    } else {
      var b' := b[..|b| - 1];
      SaveAllAppend(t, a, b', now);
      assert (a + b)[..|a + b| - 1] == a + b';
      assert (a + b)[|a + b| - 1] == b[|b| - 1];
    }
  }

  /** The later of two items sharing a key without NULLs wins wherever it
      sits: when no item after it carries that key, the table ends with
      exactly one row holding the key, and it carries that item's payload. */
  lemma LaterWinsAnywhere(t: Table, before: seq<Json>, item: Json, after: seq<Json>, now: Instant)
    requires WellFormed(t)
    requires ToRecord(item).Some? && Comparable(ToRecord(item).value.key)
    requires !KeyAccepted(after, ToRecord(item).value.key)
    ensures var u := SaveAll(t, before + [item] + after, now).0;
            var rec := ToRecord(item).value;
            exists i :: 0 <= i < |u.rows| && u.rows[i].key == rec.key && u.rows[i].payload == rec.payload
                        && forall j :: 0 <= j < |u.rows| && j != i ==> u.rows[j].key != rec.key
  {
    var rec := ToRecord(item).value;
    var mid := SaveAll(t, before + [item], now).0;
    LastWriterWins(t, before, item, now);
    SaveWellFormed(t, before + [item], now);
    SaveAllAppend(t, before + [item], after, now);
    SaveKeepsRows(mid, after, now);
    SaveWellFormed(mid, after, now);
    var u := SaveAll(t, before + [item] + after, now).0;
    var i :| 0 <= i < |mid.rows| && mid.rows[i].key == rec.key && mid.rows[i].payload == rec.payload;
    assert u.rows[i] == mid.rows[i];
  }

  /** An upsert keeps every key present. */
  lemma UpsertKeepsKeys(t: Table, rec: Record, now: Instant, k: Key)
    requires WellFormed(t) && KeyPresent(t, k)
    ensures KeyPresent(Upsert(t, rec, now), k)
  {
    UpsertEffect(t, rec, now);
    var i :| 0 <= i < |t.rows| && t.rows[i].key == k;
    assert Upsert(t, rec, now).rows[i].key == k;
  }

  /** After saving, every accepted key is present, and every key that was present still is. */
  lemma {:induction false} SavedKeysPresent(t: Table, items: seq<Json>, now: Instant, k: Key)
    requires WellFormed(t)
    requires KeyAccepted(items, k) || KeyPresent(t, k)
    ensures KeyPresent(SaveAll(t, items, now).0, k)
    decreases |items|
  {
    if items != [] {
      var init := items[..|items| - 1];
      SaveWellFormed(t, init, now);
      var before := SaveAll(t, init, now).0;
      var rec := ToRecord(items[|items| - 1]);
      if KeyAccepted(init, k) || KeyPresent(t, k) {
        SavedKeysPresent(t, init, now, k);
        if rec.Some? {
          UpsertKeepsKeys(before, rec.value, now, k);
        }
      } else {
        UpsertEffect(before, rec.value, now);
        var u := Upsert(before, rec.value, now);
        var i := if Comparable(k) && FindKey(before.rows, k).Some? then FindKey(before.rows, k).value
                 else |before.rows|;
        assert u.rows[i].key == k;
      }
    }
  }

  /** Every key without NULLs stored by `items`. */
  predicate AllComparable(items: seq<Json>) {
    forall i :: 0 <= i < |items| && ToRecord(items[i]).Some? ==> Comparable(ToRecord(items[i]).value.key)
  }

  /** Saving the same items again adds no row when no key has a NULL: each
      statement hits the row the first save left. */
  lemma ResaveAddsNoRows(t: Table, items: seq<Json>, now: Instant, later: Instant)
    requires WellFormed(t) && AllComparable(items)
    ensures var once := SaveAll(t, items, now).0;
            |SaveAll(once, items, later).0.rows| == |once.rows|
  {
    var once := SaveAll(t, items, now).0;
    SaveWellFormed(t, items, now);
    forall k | KeyAccepted(items, k) ensures KeyPresent(once, k) {
      SavedKeysPresent(t, items, now, k);
    }
    ResaveFrom(once, items, items, later);
  }

  /** Helper: saving a prefix of `all` over a table holding all of `all`'s keys adds no rows. */
  lemma {:induction false} ResaveFrom(t: Table, all: seq<Json>, items: seq<Json>, now: Instant)
    requires WellFormed(t) && AllComparable(items)
    requires forall k :: KeyAccepted(items, k) ==> KeyPresent(t, k)
    ensures |SaveAll(t, items, now).0.rows| == |t.rows|
    ensures forall k :: KeyAccepted(items, k) ==> KeyPresent(SaveAll(t, items, now).0, k)
    decreases |items|
  {
    if items != [] {
      var init := items[..|items| - 1];
      assert AllComparable(init) by {
        forall i | 0 <= i < |init| && ToRecord(init[i]).Some? ensures Comparable(ToRecord(init[i]).value.key) {
          assert init[i] == items[i];
        }
      }
      ResaveFrom(t, all, init, now);
      SaveWellFormed(t, init, now);
      var before := SaveAll(t, init, now).0;
      var rec := ToRecord(items[|items| - 1]);
      forall k | KeyAccepted(items, k) ensures KeyPresent(SaveAll(t, items, now).0, k) {
        SavedKeysPresent(t, items, now, k);
      }
      if rec.Some? {
        var k := rec.value.key;
        assert KeyAccepted(items, k);
        assert KeyPresent(t, k);
        SavedKeysPresent(t, init, now, k);
        assert Comparable(k) by {
          assert ToRecord(items[|items| - 1]).Some?;
        }
        UpsertEffect(before, rec.value, now);
      }
    }
  }

  /** An item with no tracking number is inserted anew each time it is saved. */
  lemma NullKeyDuplicates(t: Table, item: Json, now: Instant)
    requires WellFormed(t)
    requires ToRecord(item).Some? && ToRecord(item).value.key.trackingNumber.None?
    ensures |SaveAll(t, [item, item], now).0.rows| == |t.rows| + 2
  {
    var rec := ToRecord(item).value;
    assert [item, item][..1] == [item];
    assert [item][..0] == [];
    var once := Upsert(t, rec, now);
    assert SaveAll(t, [item], now).0 == once;
    assert SaveAll(t, [item, item], now).0 == Upsert(once, rec, now);
    UpsertEffect(t, rec, now);
    UpsertEffect(once, rec, now);
  }

  /** Rows ordered by `created_at`, newest first. */
  predicate NewestFirst(rows: seq<Row>) {
    forall i, j :: 0 <= i < j < |rows| ==> rows[i].createdAt >= rows[j].createdAt
  }

  /** Puts `row` into its place in a newest-first list. */
  function InsertByCreated(row: Row, rows: seq<Row>): (r: seq<Row>)
    requires NewestFirst(rows)
    ensures |r| == |rows| + 1
    ensures NewestFirst(r)
    ensures multiset(r) == multiset(rows) + multiset{row}
    ensures r[0] == row || (rows != [] && r[0] == rows[0])
  {
    if rows == [] then [row]
    else if rows[0].createdAt <= row.createdAt then [row] + rows
    else
      assert rows == [rows[0]] + rows[1..];
      var rest := InsertByCreated(row, rows[1..]);
      [rows[0]] + rest
  }

  /** The rows newest first, as ORDER BY created_at DESC returns them (rows
      with equal `created_at` in either order). */
  function OrderByCreatedDesc(rows: seq<Row>): (r: seq<Row>)
    ensures NewestFirst(r)
    ensures multiset(r) == multiset(rows)
  {
    if rows == [] then []
    else
      assert rows == rows[..|rows| - 1] + [rows[|rows| - 1]];
      InsertByCreated(rows[|rows| - 1], OrderByCreatedDesc(rows[..|rows| - 1]))
  }

  /** The `Database` object and the table its pool reaches. The table lives
      in Postgres, not in the object: it may exist before the object does, and
      otherwise it is created by the first `save_consjob_data` that reaches its
      CREATE TABLE. While it does not exist, `table` is the empty table it will
      be created as. */
  class Database {
    var table: Table
    var tableExists: bool

    ghost predicate Valid()
      reads this
    {
      WellFormed(table) && (!tableExists ==> table == EmptyTable)
    }

    /** `Database()`: no pool yet; `existing` is the table Postgres already
        holds, if any. */
    constructor (existing: Option<Table>)
      requires existing.Some? ==> WellFormed(existing.value)
      ensures Valid()
      ensures tableExists == existing.Some?
      ensures table == existing.GetOr(EmptyTable)
    {
      table := existing.GetOr(EmptyTable);
      tableExists := existing.Some?;
    }

    /** `save_consjob_data`: no items returns 0 before the pool is touched; an
        unreachable pool raises; otherwise each item is upserted on its own and
        a failing statement is skipped. */
    method SaveConsjobData(items: seq<Json>, storageUp: bool, now: Instant)
      returns (r: Result<nat, StorageFault>)
      requires Valid()
      modifies this
      ensures Valid()
      ensures items == [] ==> r == Ok(0) && table == old(table)
      ensures items != [] && !storageUp ==> r == Err(StorageUnavailable) && table == old(table)
      ensures items != [] && storageUp ==> r.Ok? && (table, r.value) == SaveAll(old(table), items, now)
      ensures tableExists == (old(tableExists) || (items != [] && storageUp))
    {
      if items == [] {
        return Ok(0);
      }
      if !storageUp {
        return Err(StorageUnavailable);
      }
      tableExists := true;
      var count := 0;
      for i := 0 to |items|
        invariant (table, count) == SaveAll(old(table), items[..i], now)
        invariant WellFormed(table) && tableExists
      {
        SaveAllSnoc(old(table), items, i, now);
        var rec := ToRecord(items[i]);
        if rec.Some? {
          UpsertEffect(table, rec.value, now);
          table := Upsert(table, rec.value, now);
          count := count + 1;
        }
      }
      assert items[..|items|] == items;
      return Ok(count);
    }

    /** `get_consjob_list`: every row, newest first; the SELECT raises while
        the table does not exist. */
    method GetConsjobList(storageUp: bool) returns (r: Result<seq<Row>, StorageFault>)
      ensures r.Ok? <==> storageUp && tableExists
      ensures !storageUp ==> r == Err(StorageUnavailable)
      ensures storageUp && !tableExists ==> r == Err(UndefinedTable)
      ensures r.Ok? ==> NewestFirst(r.value) && multiset(r.value) == multiset(table.rows)
    {
      if !storageUp {
        return Err(StorageUnavailable);
      }
      if !tableExists {
        return Err(UndefinedTable);
      }
      return Ok(OrderByCreatedDesc(table.rows));
    }
  }
}
