/** Primary events and tag index rows of internal/storage/storage.go, with the byte keys it builds. */
module TagIndex {
  import opened Options
  import opened ByteStrings
  import opened MemberCodec
  import opened Keyspace
  import opened Sequences

  datatype Event = Event(ts: nat, value: Float, tags: map<Bytes, Bytes>)
  datatype Id = Id(metric: Bytes, ts: nat)
  datatype Value = Stored(event: Event) | Ref(primary: Bytes) | Other(data: Bytes)

  type Db = map<Bytes, Value>
  type Events = map<Id, Event>

  const IDX: Bytes := [105, 100, 120]   // "idx"

  /** The other key families of the database. */
  datatype Family = Boards | Scores | Cardinality | CardinalityCount | Receipts | Outbox

  function Name(f: Family): Bytes {
    match f
    case Boards => [108, 98]   // "lb"
    case Scores => [108, 98, 45, 101, 110, 116, 105, 116, 121]   // "lb-entity"
    case Cardinality => [99, 97, 114, 100]   // "card"
    case CardinalityCount => [99, 97, 114, 100, 45, 99, 111, 117, 110, 116]   // "card-count"
    case Receipts => [114, 101, 112, 108, 45, 97, 112, 112, 108, 105, 101, 100]   // "repl-applied"
    case Outbox => [114, 101, 112, 108, 45, 111, 117, 116, 98, 111, 120]   // "repl-outbox"
  }

  /** The parser refuses the names of all key families as metrics. */
  predicate Allowed(m: Bytes) { m != IDX && forall f :: m != Name(f) }

  /** A row of another key family. */
  predicate Foreign(key: Bytes) { exists f :: Name(f) + [COLON] <= key }

  const LIMIT: nat := 0x8000_0000_0000_0000

  function EventPrefix(metric: Bytes): Bytes { Component(metric) + [COLON] }

  function IndexPrefix(metric: Bytes, tag: Bytes, value: Bytes): Bytes {
    IDX + [COLON] + (Component(metric) + [COLON] + (Component(tag) + [COLON] + (value + [COLON])))
  }

  function EventKey(metric: Bytes, ts: nat): Bytes { EventPrefix(metric) + BigEndian(ts, 8) }

  function IndexKey(metric: Bytes, tag: Bytes, value: Bytes, ts: nat): Bytes {
    IndexPrefix(metric, tag, value) + BigEndian(ts, 8)
  }

  // ---- Keys are unambiguous ----

  lemma TimesDiffer(ts: nat, us: nat)
    requires ts < LIMIT && us < LIMIT
    ensures BigEndian(ts, 8) == BigEndian(us, 8) ==> ts == us
    ensures Less(BigEndian(ts, 8), BigEndian(us, 8)) <==> ts < us
  {
    WordIsPow256();
    BigEndianOrder(ts, us, 8);
    BigEndianRoundTrip(ts, 8);
    BigEndianRoundTrip(us, 8);
  }

  lemma SameComponent(a: Bytes, b: Bytes)
    requires Component(a) == Component(b)
    ensures a == b
  {
    ComponentRoundTrip(a);
    ComponentRoundTrip(b);
  }

  lemma EventKeyInjective(m: Bytes, ts: nat, n: Bytes, us: nat)
    requires ts < LIMIT && us < LIMIT && EventKey(m, ts) == EventKey(n, us)
    ensures m == n && ts == us
  {
    hide Component, BigEndian;
    ComponentRoundTrip(m);
    ComponentRoundTrip(n);
    SplitAtColon(Component(m), BigEndian(ts, 8), Component(n), BigEndian(us, 8));
    SameComponent(m, n);
    TimesDiffer(ts, us);
  }

  lemma SameEnds(v: Bytes, x: Bytes, w: Bytes, y: Bytes)
    requires |x| == |y| && v + [COLON] + x == w + [COLON] + y
    ensures v == w && x == y
  {
    var s, t := v + [COLON] + x, w + [COLON] + y;
    assert |v| == |w|;
    assert s[..|v|] == v && t[..|w|] == w && s[|v| + 1..] == x && t[|w| + 1..] == y;
  }

  /** Tag values may contain the delimiter: the fixed-width time after the last one still separates them. */
  lemma IndexKeyInjective(m: Bytes, k: Bytes, v: Bytes, ts: nat, n: Bytes, l: Bytes, w: Bytes, us: nat)
    requires ts < LIMIT && us < LIMIT && IndexKey(m, k, v, ts) == IndexKey(n, l, w, us)
    ensures m == n && k == l && v == w && ts == us
  {
    hide Component, BigEndian;
    var x, y := BigEndian(ts, 8), BigEndian(us, 8);
    IndexKeySplit(m, k, v, x);
    IndexKeySplit(n, l, w, y);
    ComponentRoundTrip(m);
    ComponentRoundTrip(n);
    ComponentRoundTrip(k);
    ComponentRoundTrip(l);
    var p, q := Component(k) + [COLON] + (v + [COLON] + x), Component(l) + [COLON] + (w + [COLON] + y);
    SplitAtColon(IDX, Component(m) + [COLON] + p, IDX, Component(n) + [COLON] + q);
    SplitAtColon(Component(m), p, Component(n), q);
    SplitAtColon(Component(k), v + [COLON] + x, Component(l), w + [COLON] + y);
    SameEnds(v, x, w, y);
    SameComponent(m, n);
    SameComponent(k, l);
    TimesDiffer(ts, us);
  }

  lemma IndexKeySplit(m: Bytes, k: Bytes, v: Bytes, x: Bytes)
    ensures IndexPrefix(m, k, v) + x
            == IDX + [COLON] + (Component(m) + [COLON] + (Component(k) + [COLON] + (v + [COLON] + x)))
  {
    hide Component;
  }

  /** The parser refuses the metric "idx", so primary keys never look like index keys. */
  lemma KeysDisjoint(m: Bytes, x: Bytes, n: Bytes, l: Bytes, w: Bytes, y: Bytes)
    requires m != IDX
    ensures EventPrefix(m) + x != IndexPrefix(n, l, w) + y
  {
    assert !Special(IDX) && Component(IDX) == IDX;
    if EventPrefix(m) + x == IndexPrefix(n, l, w) + y {
      ComponentRoundTrip(m);
      IndexKeySplit(n, l, w, y);
      SplitAtColon(Component(m), x, IDX, Component(n) + [COLON] + (Component(l) + [COLON] + (w + [COLON] + y)));
      SameComponent(m, IDX);
    }
  }

  lemma FamilyName(f: Family)
    ensures COLON !in Name(f) && Component(Name(f)) == Name(f) && Name(f) != IDX
  {}

  lemma NotForeign(m: Bytes, tail: Bytes)
    requires Allowed(m)
    ensures !Foreign(EventPrefix(m) + tail)
  {
    hide Name, Component;
    var key := EventPrefix(m) + tail;
    forall f ensures !(Name(f) + [COLON] <= key) {
      FamilyName(f);
      ComponentRoundTrip(m);
      if Name(f) + [COLON] <= key {
        SplitAtColon(Name(f), key[|Name(f)| + 1..], Component(m), tail);
        SameComponent(m, Name(f));
      }
    }
  }

  lemma IndexNotForeign(m: Bytes, k: Bytes, v: Bytes, tail: Bytes)
    ensures !Foreign(IndexPrefix(m, k, v) + tail)
  {
    hide Name, Component;
    var key := IndexPrefix(m, k, v) + tail;
    IndexKeySplit(m, k, v, tail);
    forall f ensures !(Name(f) + [COLON] <= key) {
      FamilyName(f);
      if Name(f) + [COLON] <= key {
        SplitAtColon(Name(f), key[|Name(f)| + 1..], IDX,
          Component(m) + [COLON] + (Component(k) + [COLON] + (v + [COLON] + tail)));
      }
    }
  }

  // ---- The store mirrors the events ----

  ghost predicate EventsOk(events: Events) {
    forall id :: id in events ==> Allowed(id.metric) && id.ts < LIMIT && events[id].ts == id.ts
  }

  function IndexKeys(metric: Bytes, e: Event): set<Bytes> {
    set k | k in e.tags :: IndexKey(metric, k, e.tags[k], e.ts)
  }

  function RowKeys(metric: Bytes, e: Event): set<Bytes> { {EventKey(metric, e.ts)} + IndexKeys(metric, e) }

  /** The event's own row and one index row per tag. */
  ghost predicate Holds(db: Db, metric: Bytes, e: Event) {
    var key := EventKey(metric, e.ts);
    && key in db && db[key] == Stored(e)
    && forall i :: i in IndexKeys(metric, e) ==> i in db && db[i] == Ref(key)
  }

  ghost predicate Owned(key: Bytes, events: Events) {
    exists id :: id in events && key in RowKeys(id.metric, events[id])
  }

  /** Every event has its rows, and every other row belongs to another key family. */
  ghost predicate Mirrors(db: Db, events: Events) {
    && EventsOk(events)
    && (forall id :: id in events ==> Holds(db, id.metric, events[id]))
    && (forall key :: key in db ==> Owned(key, events) || Foreign(key))
  }

  /** A database without events, and with any rows of the other key families. */
  lemma NothingMirrored(db: Db)
    requires forall key :: key in db ==> Foreign(key)
    ensures Mirrors(db, map[])
  {}

  /** Rows of the other key families are as they were. */
  ghost predicate OthersKept(db: Db, db': Db) {
    forall key :: Foreign(key) ==> (key in db' <==> key in db) && (key in db' ==> db'[key] == db[key])
  }

  lemma RowsNotForeign(m: Bytes, e: Event)
    requires Allowed(m)
    ensures forall key :: key in RowKeys(m, e) ==> !Foreign(key)
  {
    hide Foreign, Allowed, BigEndian, EventPrefix, IndexPrefix;
    forall key | key in RowKeys(m, e) ensures !Foreign(key) {
      if key in IndexKeys(m, e) {
        var k :| k in e.tags && key == IndexKey(m, k, e.tags[k], e.ts);
        IndexNotForeign(m, k, e.tags[k], BigEndian(e.ts, 8));
      } else {
        NotForeign(m, BigEndian(e.ts, 8));
      }
    }
  }

  /** Rows of different events never share a key. */
  lemma RowsDisjoint(m: Bytes, e: Event, n: Bytes, f: Event)
    requires m != IDX && n != IDX && e.ts < LIMIT && f.ts < LIMIT && Id(m, e.ts) != Id(n, f.ts)
    ensures RowKeys(m, e) !! RowKeys(n, f)
  {
    hide EventKey, IndexKey;
    forall key | key in RowKeys(m, e) && key in RowKeys(n, f) ensures false {
      if key in IndexKeys(m, e) && key in IndexKeys(n, f) {
        var k :| k in e.tags && key == IndexKey(m, k, e.tags[k], e.ts);
        var l :| l in f.tags && key == IndexKey(n, l, f.tags[l], f.ts);
        IndexKeyInjective(m, k, e.tags[k], e.ts, n, l, f.tags[l], f.ts);
      } else if key in IndexKeys(m, e) {
        EventIsNotIndex(n, f.ts, m, e);
      } else if key in IndexKeys(n, f) {
        EventIsNotIndex(m, e.ts, n, f);
      } else {
        EventKeyInjective(m, e.ts, n, f.ts);
      }
    }
  }

  lemma EventIsNotIndex(m: Bytes, ts: nat, n: Bytes, f: Event)
    requires m != IDX
    ensures EventKey(m, ts) !in IndexKeys(n, f)
  {
    if EventKey(m, ts) in IndexKeys(n, f) {
      var l :| l in f.tags && EventKey(m, ts) == IndexKey(n, l, f.tags[l], f.ts);
      KeysDisjoint(m, BigEndian(ts, 8), n, l, f.tags[l], BigEndian(f.ts, 8));
    }
  }

  lemma IsOwned(key: Bytes, events: Events, id: Id)
    requires id in events && key in RowKeys(id.metric, events[id])
    ensures Owned(key, events)
  {}

  lemma Owner(key: Bytes, events: Events) returns (id: Id)
    requires Owned(key, events)
    ensures id in events && key in RowKeys(id.metric, events[id])
  {
    id :| id in events && key in RowKeys(id.metric, events[id]);
  }

  lemma RemoveMirrors(db: Db, events: Events, id: Id)
    requires Mirrors(db, events) && id in events
    ensures Mirrors(db - RowKeys(id.metric, events[id]), events - {id})
  {
    hide RowKeys, Holds, Owned, Foreign, Name;
    var gone, kept := RowKeys(id.metric, events[id]), events - {id};
    var db' := db - gone;
    forall o | o in kept ensures Holds(db', o.metric, kept[o]) {
      RowsDisjoint(o.metric, kept[o], id.metric, events[id]);
      assert o in events && Holds(db, o.metric, events[o]);
      HoldsKeys(db, o.metric, kept[o]);
      HoldsElsewhere(db, db', o.metric, kept[o]);
    }
    forall key | key in db' ensures Owned(key, kept) || Foreign(key) {
      if !Foreign(key) {
        var o := Owner(key, events);
        IsOwned(key, kept, o);
      }
    }
  }

  lemma HoldsKeys(db: Db, m: Bytes, e: Event)
    requires Holds(db, m, e)
    ensures RowKeys(m, e) <= db.Keys
  {}

  lemma HoldsElsewhere(db: Db, db': Db, m: Bytes, e: Event)
    requires Holds(db, m, e) && forall key :: key in RowKeys(m, e) ==> key in db' && db'[key] == db[key]
    ensures Holds(db', m, e)
  {
    hide EventKey, IndexKeys;
    assert EventKey(m, e.ts) in RowKeys(m, e);
  }

  function Rows(m: Bytes, e: Event): Db {
    map key | key in RowKeys(m, e) :: if key == EventKey(m, e.ts) then Stored(e) else Ref(EventKey(m, e.ts))
  }

  lemma InsertMirrors(db: Db, events: Events, m: Bytes, e: Event)
    requires Mirrors(db, events) && Id(m, e.ts) !in events && Allowed(m) && e.ts < LIMIT
    ensures Mirrors(db + Rows(m, e), events[Id(m, e.ts) := e])
  {
    hide RowKeys, Holds, Owned, Foreign, Name;
    var id := Id(m, e.ts);
    var db', events' := db + Rows(m, e), events[id := e];
    forall o | o in events' ensures Holds(db', o.metric, events'[o]) {
      if o == id {
        NewRowsHold(db, m, e);
      } else {
        RowsDisjoint(o.metric, events[o], m, e);
        assert Holds(db, o.metric, events[o]);
        HoldsKeys(db, o.metric, events[o]);
        HoldsElsewhere(db, db', o.metric, events[o]);
      }
    }
    forall key | key in db' ensures Owned(key, events') || Foreign(key) {
      if key in RowKeys(m, e) {
        IsOwned(key, events', id);
      } else if !Foreign(key) {
        var o := Owner(key, events);
        IsOwned(key, events', o);
      }
    }
  }

  lemma NewRowsHold(db: Db, m: Bytes, e: Event)
    requires m != IDX
    ensures Holds(db + Rows(m, e), m, e)
  {
    hide EventKey, IndexKeys;
    EventIsNotIndex(m, e.ts, m, e);
  }

  /** StageEvent: index rows of an overwritten event go before the new rows are set. */
  function StageEvent(db: Db, metric: Bytes, e: Event): Db {
    var key := EventKey(metric, e.ts);
    var stale := if key in db && db[key].Stored? then IndexKeys(metric, db[key].event) else {};
    (db - stale)[key := Stored(e)] + (map i | i in IndexKeys(metric, e) :: Ref(key))
  }

  /** After staging, the index rows again match the events exactly, overwrites included. */
  lemma StageEventMirrors(db: Db, events: Events, m: Bytes, e: Event)
    requires Mirrors(db, events) && Allowed(m) && e.ts < LIMIT
    ensures Mirrors(StageEvent(db, m, e), events[Id(m, e.ts) := e]) && OthersKept(db, StageEvent(db, m, e))
  {
    hide Mirrors, Name, Foreign, RowKeys, StageEvent;
    var id := Id(m, e.ts);
    RowsNotForeign(m, e);
    if id in events {
      StoredRow(db, events, id);
      RowsNotForeign(m, events[id]);
      StageIsReplace(db, m, e, events[id]);
      RemoveMirrors(db, events, id);
      InsertMirrors(db - RowKeys(m, events[id]), events - {id}, m, e);
      assert (events - {id})[id := e] == events[id := e];
    } else {
      NotStored(db, events, m, e.ts);
      StageIsInsert(db, m, e);
      InsertMirrors(db, events, m, e);
    }
  }

  lemma StoredRow(db: Db, events: Events, id: Id)
    requires Mirrors(db, events) && id in events
    ensures Holds(db, id.metric, events[id]) && EventsOk(events)
  {}

  lemma StageIsInsert(db: Db, m: Bytes, e: Event)
    requires m != IDX && EventKey(m, e.ts) !in db
    ensures StageEvent(db, m, e) == db + Rows(m, e)
  {
    EventIsNotIndex(m, e.ts, m, e);
    hide IndexKeys, EventKey;
    assert db - {} == db;
  }

  lemma StageIsReplace(db: Db, m: Bytes, e: Event, previous: Event)
    requires m != IDX && Holds(db, m, previous) && previous.ts == e.ts
    ensures StageEvent(db, m, e) == (db - RowKeys(m, previous)) + Rows(m, e)
  {
    EventIsNotIndex(m, e.ts, m, e);
    EventIsNotIndex(m, e.ts, m, previous);
    hide IndexKeys, EventKey;
  }

  lemma NotStored(db: Db, events: Events, m: Bytes, ts: nat)
    requires Mirrors(db, events) && Allowed(m) && ts < LIMIT && Id(m, ts) !in events
    ensures EventKey(m, ts) !in db
  {
    NotForeign(m, BigEndian(ts, 8));
    hide EventKey, IndexKeys, Holds, Owned, Foreign, Name;
    if EventKey(m, ts) in db {
      var id := Owner(EventKey(m, ts), events);
      EventIsNotIndex(m, ts, id.metric, events[id]);
      EventKeyInjective(m, ts, id.metric, id.ts);
    }
  }

  // ---- Scans ----

  /** The plain time range, or the index of one tag of the filter. */
  datatype Via = Primary | Tag(tag: Bytes, value: Bytes)

  function Prefix(m: Bytes, via: Via): Bytes {
    if via.Primary? then EventPrefix(m) else IndexPrefix(m, via.tag, via.value)
  }

  function ScanKey(m: Bytes, via: Via, ts: nat): Bytes { Prefix(m, via) + BigEndian(ts, 8) }

  predicate Matches(e: Event, where: map<Bytes, Bytes>) {
    forall k :: k in where ==> k in e.tags && e.tags[k] == where[k]
  }

  /** Keys the iterator visits, in ascending order. */
  function Scanned(db: Db, m: Bytes, via: Via, from: nat, to: nat): seq<Bytes> {
    Sort(set key | key in db && InRange(key, ScanKey(m, via, from), ScanKey(m, via, to)))
  }

  function PrimaryOf(db: Db, key: Bytes, via: Via): Bytes
    requires key in db
  {
    if via.Tag? && db[key].Ref? then db[key].primary else key
  }

  /** One visited row: follow the reference of an index row, then test every tag of the filter. */
  function Pick(db: Db, key: Bytes, via: Via, where: map<Bytes, Bytes>): Option<Event>
    requires key in db
  {
    var primary := PrimaryOf(db, key, via);
    if primary in db && db[primary].Stored? && Matches(db[primary].event, where) then Some(db[primary].event) else None
  }

  function Picked(db: Db, keys: seq<Bytes>, via: Via, where: map<Bytes, Bytes>): seq<Event>
    requires forall key :: key in keys ==> key in db
  {
    if keys == [] then []
    else
      assert keys[0] in keys;
      var e := Pick(db, keys[0], via, where);
      (if e.Some? then [e.value] else []) + Picked(db, keys[1..], via, where)
  }

  /** `es` are the metric's events in [from, to) that match the filter, by ascending time. */
  ghost predicate Filtered(events: Events, m: Bytes, from: nat, to: nat, where: map<Bytes, Bytes>, es: seq<Event>) {
    && (forall i, j :: 0 <= i < j < |es| ==> es[i].ts < es[j].ts)
    && (forall e :: e in es <==> Wanted(events, m, from, to, where, e))
  }

  ghost predicate Wanted(events: Events, m: Bytes, from: nat, to: nat, where: map<Bytes, Bytes>, e: Event) {
    && Id(m, e.ts) in events && events[Id(m, e.ts)] == e && from <= e.ts < to
    && forall k :: k in where ==> k in e.tags && e.tags[k] == where[k]
  }

  lemma {:induction false} RangeHasPrefix(key: Bytes, p: Bytes, x: Bytes, y: Bytes)
    requires InRange(key, p + x, p + y)
    ensures |p| <= |key| && key[..|p|] == p
  {
    if p != [] {
      assert (p + x)[1..] == p[1..] + x && (p + y)[1..] == p[1..] + y;
      RangeHasPrefix(key[1..], p[1..], x, y);
      assert key == [key[0]] + key[1..] && p == [p[0]] + p[1..];
      assert key[..|p|] == [key[0]] + key[1..][..|p| - 1];
    }
  }

  lemma ScanKeyInRange(m: Bytes, via: Via, ts: nat, from: nat, to: nat)
    requires ts < LIMIT && from < LIMIT && to < LIMIT
    ensures InRange(ScanKey(m, via, ts), ScanKey(m, via, from), ScanKey(m, via, to)) <==> from <= ts < to
    ensures Less(ScanKey(m, via, ts), ScanKey(m, via, from)) <==> ts < from
  {
    hide Less, Prefix, BigEndian;
    var p := Prefix(m, via);
    LessTotal(p, p);
    LessByHead(p, BigEndian(ts, 8), p, BigEndian(from, 8));
    LessByHead(p, BigEndian(ts, 8), p, BigEndian(to, 8));
    TimesDiffer(ts, from);
    TimesDiffer(ts, to);
  }

  /** Whose row a visited key is: key ranges of different tag values may overlap, other metrics never. */
  lemma VisitedOwner(db: Db, events: Events, m: Bytes, via: Via, key: Bytes, tail: Bytes) returns (id: Id)
    requires Mirrors(db, events) && Allowed(m) && key in db && key == Prefix(m, via) + tail
    ensures id in events && id.metric == m
    ensures via.Primary? ==> key == EventKey(m, id.ts)
    ensures via.Tag? ==> via.tag in events[id].tags && key == IndexKey(m, via.tag, events[id].tags[via.tag], id.ts)
                         && key in IndexKeys(m, events[id])
  {
    hide Holds, Owned, Component, BigEndian, Foreign, Name;
    if via.Primary? { NotForeign(m, tail); } else { IndexNotForeign(m, via.tag, via.value, tail); }
    id := Owner(key, events);
    var n, e := id.metric, events[id];
    ComponentRoundTrip(m);
    ComponentRoundTrip(n);
    if key in IndexKeys(n, e) {
      var tag :| tag in e.tags && key == IndexKey(n, tag, e.tags[tag], e.ts);
      var y := BigEndian(e.ts, 8);
      if via.Primary? {
        KeysDisjoint(m, tail, n, tag, e.tags[tag], y);
      } else {
        SameOwner(m, via.tag, via.value, tail, n, tag, e.tags[tag], y);
      }
    } else if via.Tag? {
      KeysDisjoint(n, BigEndian(id.ts, 8), m, via.tag, via.value, tail);
    } else {
      SplitAtColon(Component(m), tail, Component(n), BigEndian(id.ts, 8));
      SameComponent(m, n);
    }
  }

  lemma SameOwner(m: Bytes, k: Bytes, v: Bytes, x: Bytes, n: Bytes, l: Bytes, w: Bytes, y: Bytes)
    requires IndexPrefix(m, k, v) + x == IndexPrefix(n, l, w) + y
    ensures m == n && k == l
  {
    hide Component;
    IndexKeySplit(m, k, v, x);
    IndexKeySplit(n, l, w, y);
    ComponentRoundTrip(m);
    ComponentRoundTrip(n);
    ComponentRoundTrip(k);
    ComponentRoundTrip(l);
    var p, q := Component(k) + [COLON] + (v + [COLON] + x), Component(l) + [COLON] + (w + [COLON] + y);
    SplitAtColon(IDX, Component(m) + [COLON] + p, IDX, Component(n) + [COLON] + q);
    SplitAtColon(Component(m), p, Component(n), q);
    SplitAtColon(Component(k), v + [COLON] + x, Component(l), w + [COLON] + y);
    SameComponent(m, n);
    SameComponent(k, l);
  }

  ghost predicate Serves(via: Via, where: map<Bytes, Bytes>) {
    via.Tag? ==> via.tag in where && where[via.tag] == via.value
  }

  lemma RangeOwner(db: Db, events: Events, m: Bytes, via: Via, from: nat, to: nat, key: Bytes) returns (id: Id)
    requires Mirrors(db, events) && Allowed(m)
    requires key in db && InRange(key, ScanKey(m, via, from), ScanKey(m, via, to))
    ensures id in events && id.metric == m
    ensures via.Primary? ==> key == EventKey(m, id.ts)
    ensures via.Tag? ==> via.tag in events[id].tags && key == IndexKey(m, via.tag, events[id].tags[via.tag], id.ts)
                         && key in IndexKeys(m, events[id])
  {
    hide Mirrors, Less, BigEndian, IndexKeys, IndexPrefix, EventPrefix;
    var p := Prefix(m, via);
    RangeHasPrefix(key, p, BigEndian(from, 8), BigEndian(to, 8));
    assert key == p + key[|p|..];
    id := VisitedOwner(db, events, m, via, key, key[|p|..]);
  }

  lemma PickedEvent(db: Db, m: Bytes, e: Event, via: Via, where: map<Bytes, Bytes>, key: Bytes)
    requires Holds(db, m, e) && key in db
    requires if via.Primary? then key == EventKey(m, e.ts) else key in IndexKeys(m, e)
    ensures Pick(db, key, via, where) == if Matches(e, where) then Some(e) else None
  {
    hide IndexKeys, EventKey, Matches;
  }

  /** A picked row is a wanted event, reached through the key of its own time. */
  lemma PickSound(db: Db, events: Events, m: Bytes, via: Via, from: nat, to: nat, where: map<Bytes, Bytes>, key: Bytes)
    requires Mirrors(db, events) && Allowed(m) && from < LIMIT && to < LIMIT && Serves(via, where)
    requires key in db && InRange(key, ScanKey(m, via, from), ScanKey(m, via, to)) && Pick(db, key, via, where).Some?
    ensures var e := Pick(db, key, via, where).value;
            Wanted(events, m, from, to, where, e) && key == ScanKey(m, via, e.ts) && e.ts < LIMIT
  {
    hide Less, Mirrors, Holds, InRange, BigEndian, IndexKeys, IndexPrefix, EventPrefix, Pick;
    var id := RangeOwner(db, events, m, via, from, to, key);
    StoredRow(db, events, id);
    PickedEvent(db, m, events[id], via, where, key);
    ScanKeyInRange(m, via, id.ts, from, to);
  }

  lemma PickComplete(db: Db, events: Events, m: Bytes, via: Via, from: nat, to: nat, where: map<Bytes, Bytes>, e: Event)
    requires Mirrors(db, events) && from < LIMIT && to < LIMIT && Serves(via, where)
             && Wanted(events, m, from, to, where, e)
    ensures var key := ScanKey(m, via, e.ts);
            && key in db && InRange(key, ScanKey(m, via, from), ScanKey(m, via, to))
               && Pick(db, key, via, where) == Some(e)
  {
    hide Less, InRange, Mirrors, BigEndian, IndexPrefix, EventPrefix, Pick;
    StoredRow(db, events, Id(m, e.ts));
    ScanKeyInRange(m, via, e.ts, from, to);
    if via.Tag? { assert IndexKey(m, via.tag, via.value, e.ts) in IndexKeys(m, e); }
    PickedEvent(db, m, e, via, where, ScanKey(m, via, e.ts));
  }

  ghost predicate Yields(db: Db, keys: seq<Bytes>, via: Via, where: map<Bytes, Bytes>, e: Event)
    requires forall key :: key in keys ==> key in db
  {
    exists key :: key in keys && Pick(db, key, via, where) == Some(e)
  }

  lemma {:induction false} PickedMembers(db: Db, keys: seq<Bytes>, via: Via, where: map<Bytes, Bytes>, e: Event)
    requires forall key :: key in keys ==> key in db
    ensures e in Picked(db, keys, via, where) <==> Yields(db, keys, via, where, e)
  {
    hide Pick;
    if keys != [] {
      var rest := keys[1..];
      assert keys == [keys[0]] + rest;
      PickedMembers(db, rest, via, where, e);
      assert keys[0] in keys;
    }
  }

  /** The row was reached through the key of its own time. */
  ghost predicate AtOwnTime(db: Db, m: Bytes, via: Via, where: map<Bytes, Bytes>, key: Bytes)
    requires key in db
  {
    var e := Pick(db, key, via, where);
    e.Some? ==> key == ScanKey(m, via, e.value.ts) && e.value.ts < LIMIT
  }

  lemma {:induction false} PickedOrder(db: Db, m: Bytes, via: Via, where: map<Bytes, Bytes>, keys: seq<Bytes>)
    requires Ascending(keys) && forall key :: key in keys ==> key in db
    requires forall key :: key in keys ==> AtOwnTime(db, m, via, where, key)
    ensures var es := Picked(db, keys, via, where); forall i, j :: 0 <= i < j < |es| ==> es[i].ts < es[j].ts
  {
    hide Less, ScanKey, Pick, AtOwnTime, Yields;
    if keys != [] {
      var rest := keys[1..];
      PickedOrder(db, m, via, where, rest);
      var tail := Picked(db, rest, via, where);
      assert keys[0] in keys;
      var head := Pick(db, keys[0], via, where);
      if head.Some? {
        forall j | 0 <= j < |tail| ensures head.value.ts < tail[j].ts {
          PickedMembers(db, rest, via, where, tail[j]);
          EarlierKey(db, m, via, where, keys, tail[j]);
        }
        assert Picked(db, keys, via, where) == [head.value] + tail;
      }
    }
  }

  lemma EarlierKey(db: Db, m: Bytes, via: Via, where: map<Bytes, Bytes>, keys: seq<Bytes>, f: Event)
    requires keys != [] && Ascending(keys) && forall key :: key in keys ==> key in db
    requires forall key :: key in keys ==> AtOwnTime(db, m, via, where, key)
    requires keys[0] in keys && Pick(db, keys[0], via, where).Some? && Yields(db, keys[1..], via, where, f)
    ensures Pick(db, keys[0], via, where).value.ts < f.ts
  {
    hide Less, ScanKey, Pick;
    var rest := keys[1..];
    var key :| key in rest && Pick(db, key, via, where) == Some(f);
    var k :| 0 <= k < |rest| && rest[k] == key;
    assert keys[k + 1] == key && Less(keys[0], keys[k + 1]);
    assert AtOwnTime(db, m, via, where, keys[0]) && AtOwnTime(db, m, via, where, key);
    ScanKeyInRange(m, via, Pick(db, keys[0], via, where).value.ts, f.ts, f.ts);
  }

  lemma ScannedKeys(db: Db, m: Bytes, via: Via, from: nat, to: nat)
    ensures var keys := Scanned(db, m, via, from, to);
            && Ascending(keys)
            && forall key :: key in keys <==> key in db && InRange(key, ScanKey(m, via, from), ScanKey(m, via, to))
  {
    SortCorrect(set key | key in db && InRange(key, ScanKey(m, via, from), ScanKey(m, via, to)));
  }

  /** A scan through any tag of the filter finds exactly what the plain filter over events finds. */
  lemma ScanIsFilter(db: Db, events: Events, m: Bytes, via: Via, from: nat, to: nat, where: map<Bytes, Bytes>)
    requires Mirrors(db, events) && Allowed(m) && from < LIMIT && to < LIMIT && Serves(via, where)
    ensures forall key :: key in Scanned(db, m, via, from, to) ==> key in db
    ensures Filtered(events, m, from, to, where, Picked(db, Scanned(db, m, via, from, to), via, where))
  {
    hide Mirrors, Less, InRange, ScanKey, Pick, Picked, Wanted, Scanned;
    ScannedKeys(db, m, via, from, to);
    var keys := Scanned(db, m, via, from, to);
    forall key | key in keys ensures AtOwnTime(db, m, via, where, key) {
      if Pick(db, key, via, where).Some? { PickSound(db, events, m, via, from, to, where, key); }
    }
    PickedOrder(db, m, via, where, keys);
    forall e ensures e in Picked(db, keys, via, where) <==> Wanted(events, m, from, to, where, e) {
      PickedMembers(db, keys, via, where, e);
      if Yields(db, keys, via, where, e) {
        var key :| key in keys && Pick(db, key, via, where) == Some(e);
        PickSound(db, events, m, via, from, to, where, key);
      }
      if Wanted(events, m, from, to, where, e) {
        PickComplete(db, events, m, via, from, to, where, e);
        assert ScanKey(m, via, e.ts) in keys;
      }
    }
  }

  /** The filter has only one answer. */
  lemma {:induction false} AscendingSame(es: seq<Event>, fs: seq<Event>)
    requires forall i, j :: 0 <= i < j < |es| ==> es[i].ts < es[j].ts
    requires forall i, j :: 0 <= i < j < |fs| ==> fs[i].ts < fs[j].ts
    requires forall e :: e in es <==> e in fs
    ensures es == fs
  {
    assert (es != [] ==> es[0] in fs) && (fs != [] ==> fs[0] in es);
    if es != [] && fs != [] {
      var i :| 0 <= i < |fs| && fs[i] == es[0];
      var j :| 0 <= j < |es| && es[j] == fs[0];
      assert i == 0;
      forall e ensures e in es[1..] <==> e in fs[1..] {
        assert e in es <==> e in fs;
        assert es[0] !in es[1..] && fs[0] !in fs[1..];
        assert es == [es[0]] + es[1..] && fs == [fs[0]] + fs[1..];
      }
      AscendingSame(es[1..], fs[1..]);
      assert es == [es[0]] + es[1..] && fs == [fs[0]] + fs[1..];
    }
  }

  lemma FilteredUnique(events: Events, m: Bytes, from: nat, to: nat, where: map<Bytes, Bytes>, es: seq<Event>,
                       fs: seq<Event>)
    requires Filtered(events, m, from, to, where, es) && Filtered(events, m, from, to, where, fs)
    ensures es == fs
  {
    hide Wanted;
    AscendingSame(es, fs);
  }

  lemma {:induction false} PickedAppend(db: Db, a: seq<Bytes>, b: seq<Bytes>, via: Via, where: map<Bytes, Bytes>)
    requires forall key :: key in a || key in b ==> key in db
    ensures forall key :: key in a + b ==> key in db
    ensures Picked(db, a + b, via, where) == Picked(db, a, via, where) + Picked(db, b, via, where)
  {
    hide Pick;
    if a == [] {
      assert a + b == b;
    } else {
      var s, rest := a + b, a[1..];
      assert s[1..] == rest + b && s[0] == a[0];
      PickedAppend(db, rest, b, via, where);
      var e := Pick(db, a[0], via, where);
      var one := if e.Some? then [e.value] else [];
      assert Picked(db, s, via, where) == one + Picked(db, s[1..], via, where);
      assert Picked(db, a, via, where) == one + Picked(db, rest, via, where);
    }
  }

  /** Walking the iterator backwards delivers the same events in reverse. */
  lemma {:induction false} PickedBackwards(db: Db, keys: seq<Bytes>, via: Via, where: map<Bytes, Bytes>)
    requires forall key :: key in keys ==> key in db
    ensures forall key :: key in Reverse(keys) ==> key in db
    ensures Picked(db, Reverse(keys), via, where) == Reverse(Picked(db, keys, via, where))
  {
    hide Pick;
    if keys != [] {
      var rest := keys[1..];
      PickedBackwards(db, rest, via, where);
      assert Reverse(keys) == Reverse(rest) + [keys[0]];
      assert keys[0] in keys;
      PickedAppend(db, Reverse(rest), [keys[0]], via, where);
      var tail, head := Picked(db, rest, via, where), Pick(db, keys[0], via, where);
      if head.Some? { assert Reverse([head.value] + tail) == Reverse(tail) + [head.value]; }
    }
  }

  /** The page loop over the rows in visiting order. */
  method Collect(db: Db, keys: seq<Bytes>, via: Via, where: map<Bytes, Bytes>, limit: nat, offset: nat)
    returns (events: seq<Event>)
    requires forall key :: key in keys ==> key in db
    ensures events == Page(Picked(db, keys, via, where), offset, limit)
  {
    hide Pick, Slice, Picked;
    ghost var all := Picked(db, keys, via, where);
    ghost var cap := if limit == 0 then |all| + 1 else limit;
    var skip, i := offset, 0;
    events := [];
    if limit == 0 { SliceCap(all, offset, cap); }
    assert keys[0..] == keys;
    while i < |keys| && !(limit > 0 && |events| >= limit)
      invariant 0 <= i <= |keys| && |events| <= cap
      invariant limit == 0 ==> |events| + |Picked(db, keys[i..], via, where)| < cap
      invariant events + Slice(Picked(db, keys[i..], via, where), skip, cap - |events|) == Slice(all, offset, cap)
      invariant skip > 0 ==> events == []
    {
      PickedNext(db, keys, i, via, where);
      ghost var rest := Picked(db, keys[i + 1..], via, where);
      var e := Pick(db, keys[i], via, where);
      if e.Some? {
        SliceStep(e.value, rest, skip, cap - |events|);
        if skip > 0 {
          skip := skip - 1;
        } else {
          assert events + ([e.value] + Slice(rest, 0, cap - |events| - 1))
            == events + [e.value] + Slice(rest, 0, cap - |events| - 1);
          events := events + [e.value];
        }
      }
      i := i + 1;
    }
    NothingPicked(db, [], via, where);
    SliceEnds(Picked(db, keys[i..], via, where), skip, cap - |events|);
  }

  lemma SliceEnds<T>(s: seq<T>, offset: nat, limit: nat)
    ensures s == [] || limit == 0 ==> Slice(s, offset, limit) == []
  {}

  /**
    ReadPage, whichever tag of the filter BestIndexTag picked: one page of the plain filter over the
    events, from the old end or the new end.
    */
  method ReadPage(db: Db, ghost events: Events, m: Bytes, from: nat, to: nat, where: map<Bytes, Bytes>,
                  via: Via, limit: int, offset: int, desc: bool)
    returns (r: Option<seq<Event>>)
    requires Mirrors(db, events) && Allowed(m) && from < LIMIT && to < LIMIT && Serves(via, where)
    ensures r.None? <==> limit < 0 || offset < 0
    ensures exists es :: Filtered(events, m, from, to, where, es)
    ensures r.Some? ==> forall es :: Filtered(events, m, from, to, where, es) ==>
                          r.value == Page(if desc then Reverse(es) else es, offset, limit)
  {
    hide Mirrors, Filtered, Page, Picked, Scanned;
    ScanIsFilter(db, events, m, via, from, to, where);
    if limit < 0 || offset < 0 { return None; }
    var keys := Scanned(db, m, via, from, to);
    ghost var found := Picked(db, keys, via, where);
    if desc {
      PickedBackwards(db, keys, via, where);
      keys := Reverse(keys);
    }
    var page := Collect(db, keys, via, where, limit, offset);
    r := Some(page);
    forall es | Filtered(events, m, from, to, where, es) ensures es == found {
      FilteredUnique(events, m, from, to, where, es, found);
    }
  }

  ghost function Ids(m: Bytes, es: seq<Event>): set<Id> { set e | e in es :: Id(m, e.ts) }

  lemma PrimaryKey(db: Db, m: Bytes, e: Event, via: Via, where: map<Bytes, Bytes>)
    requires Holds(db, m, e) && ScanKey(m, via, e.ts) in db && Matches(e, where) && Serves(via, where)
    ensures PrimaryOf(db, ScanKey(m, via, e.ts), via) == EventKey(m, e.ts)
  {
    hide BigEndian, EventPrefix, IndexPrefix;
    if via.Tag? { assert IndexKey(m, via.tag, via.value, e.ts) in IndexKeys(m, e); }
  }

  /** One event more is removed together with all its rows. */
  lemma RemoveNext(db: Db, events: Events, m: Bytes, es: seq<Event>, k: nat, gone: set<Bytes>)
    requires k < |es| && (forall i, j :: 0 <= i < j < |es| ==> es[i].ts < es[j].ts)
    requires Id(m, es[k].ts) in events && events[Id(m, es[k].ts)] == es[k]
    requires Mirrors(db - gone, events - Ids(m, es[..k]))
    ensures Mirrors(db - (gone + RowKeys(m, es[k])), events - Ids(m, es[..k + 1]))
  {
    hide Mirrors, RowKeys;
    var id := Id(m, es[k].ts);
    var left := events - Ids(m, es[..k]);
    assert id !in Ids(m, es[..k]);
    RemoveMirrors(db - gone, left, id);
    assert db - gone - RowKeys(m, es[k]) == db - (gone + RowKeys(m, es[k]));
    assert es[..k + 1] == es[..k] + [es[k]];
    assert left - {id} == events - Ids(m, es[..k + 1]);
  }

  lemma DeleteStep(db: Db, events: Events, m: Bytes, via: Via, from: nat, to: nat, where: map<Bytes, Bytes>, key: Bytes,
                   es: seq<Event>, k: nat, gone: set<Bytes>)
    requires Mirrors(db, events) && Allowed(m) && from < LIMIT && to < LIMIT && Serves(via, where)
    requires key in db && InRange(key, ScanKey(m, via, from), ScanKey(m, via, to))
    requires Filtered(events, m, from, to, where, es) && k < |es| && Pick(db, key, via, where) == Some(es[k])
    requires Mirrors(db - gone, events - Ids(m, es[..k]))
    ensures Mirrors(db - (gone + IndexKeys(m, es[k]) + {PrimaryOf(db, key, via)}), events - Ids(m, es[..k + 1]))
    ensures forall i :: i in IndexKeys(m, es[k]) + {PrimaryOf(db, key, via)} ==> !Foreign(i)
  {
    hide Foreign, Allowed, Mirrors, Pick, PrimaryOf, IndexKeys, EventKey, ScanKey, InRange, Ids, Holds;
    PickSound(db, events, m, via, from, to, where, key);
    StoredRow(db, events, Id(m, es[k].ts));
    PrimaryKey(db, m, es[k], via, where);
    RemoveNext(db, events, m, es, k, gone);
    RowsNotForeign(m, es[k]);
    assert gone + IndexKeys(m, es[k]) + {PrimaryOf(db, key, via)} == gone + RowKeys(m, es[k]);
  }

  lemma PickedNext(db: Db, keys: seq<Bytes>, i: nat, via: Via, where: map<Bytes, Bytes>)
    requires i < |keys| && forall key :: key in keys ==> key in db
    ensures var e, rest := Pick(db, keys[i], via, where), Picked(db, keys[i + 1..], via, where);
            Picked(db, keys[i..], via, where) == if e.Some? then [e.value] + rest else rest
  {
    assert keys[i..][1..] == keys[i + 1..];
  }

  /** ScanDeleteWhere: exactly the matching events go, with every index row they own; a dry run only counts. */
  method ScanDeleteWhere(db: Db, ghost events: Events, m: Bytes, from: nat, to: nat, where: map<Bytes, Bytes>,
                         via: Via, dry: bool)
    returns (db': Db, count: nat)
    requires Mirrors(db, events) && Allowed(m) && from < LIMIT && to < LIMIT && Serves(via, where)
    ensures dry ==> db' == db
    ensures exists es :: Filtered(events, m, from, to, where, es)
    ensures forall es :: Filtered(events, m, from, to, where, es) ==>
              count == |es| && (!dry ==> Mirrors(db', events - Ids(m, es)))
    ensures OthersKept(db, db')
  {
    hide Foreign, Allowed, Mirrors, Filtered, Picked, Scanned, Pick, IndexKeys, ScanKey, InRange, PrimaryOf;
    ScanIsFilter(db, events, m, via, from, to, where);
    ScannedKeys(db, m, via, from, to);
    var keys := Scanned(db, m, via, from, to);
    ghost var es := Picked(db, keys, via, where);
    var gone := {};
    count := 0;
    assert keys[0..] == keys && es[0..] == es && db - {} == db && events - Ids(m, es[..0]) == events;
    for i := 0 to |keys|
      invariant count <= |es| && es[count..] == Picked(db, keys[i..], via, where)
      invariant (dry ==> gone == {}) && forall key :: key in gone ==> !Foreign(key)
      invariant !dry ==> Mirrors(db - gone, events - Ids(m, es[..count]))
    {
      hide Ids;
      PickedNext(db, keys, i, via, where);
      var e := Pick(db, keys[i], via, where);
      if e.Some? {
        assert es[count] == es[count..][0] && es[count..][1..] == es[count + 1..];
        if !dry {
          DeleteStep(db, events, m, via, from, to, where, keys[i], es, count, gone);
          gone := gone + IndexKeys(m, e.value) + {PrimaryOf(db, keys[i], via)};
        }
        count := count + 1;
      }
    }
    db' := db - gone;
    NothingPicked(db, keys[|keys|..], via, where);
    assert es[..count] == es;
    forall fs | Filtered(events, m, from, to, where, fs) ensures fs == es {
      FilteredUnique(events, m, from, to, where, fs, es);
    }
  }

  lemma NothingPicked(db: Db, keys: seq<Bytes>, via: Via, where: map<Bytes, Bytes>)
    requires keys == []
    ensures Picked(db, keys, via, where) == []
  {}
}
