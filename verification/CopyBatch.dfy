/** Ordered staging of one ingest transaction (internal/analytics/batch.go) and the diffs it publishes. */
module CopyBatch {
  import opened Options
  import opened ByteStrings
  import opened MemberCodec
  import opened Projection
  import opened Sequences
  import ProjectionProtocol
  import E = EventRows
  import Timestamps

  datatype Key = Key(metric: Bytes, board: Bytes, entity: Bytes)

  /** A validated WRITE; `boards` maps each board to the entity it credits, timestamp zero asks for an automatic one. */
  datatype Item = Item(metric: Bytes, ts: int, value: Float, tags: map<Bytes, Bytes>, boards: map<Bytes, Bytes>)

  /** flame_scores. */
  type Rows = map<Key, Score>

  type Plus = (Float, Float) -> Float

  // ---- One item at a time, as mutate does it ----

  function Sum(plus: Plus, rows: Rows, q: Item, k: Key): Float { plus(if k in rows then rows[k] else ZERO, q.value) }

  function KeyOf(q: Item, b: Bytes): Key
    requires b in q.boards
  {
    Key(q.metric, b, q.boards[b])
  }

  function Keys(q: Item): set<Key> { set b | b in q.boards :: KeyOf(q, b) }

  predicate Rejects(plus: Plus, rows: Rows, q: Item) { exists k :: k in Keys(q) && !Sum(plus, rows, q, k).Finite() }

  function Sums(plus: Plus, rows: Rows, q: Item): Rows
    requires !Rejects(plus, rows, q)
  {
    map k | k in Keys(q) :: Sum(plus, rows, q, k).Canonical()
  }

  /** One mutation in its own transaction: rolled back when any board would overflow. */
  function Mutate(plus: Plus, rows: Rows, q: Item): Rows {
    if Rejects(plus, rows, q) then rows else rows + Sums(plus, rows, q)
  }

  function MutateAll(plus: Plus, rows: Rows, items: seq<Item>): Rows {
    if items == [] then rows else Mutate(plus, MutateAll(plus, rows, items[..|items| - 1]), items[|items| - 1])
  }

  // ---- Staged in input order ----

  /** The boards of one item, in any map order, against the staged scores. */
  method Propose(plus: Plus, current: Rows, q: Item) returns (proposed: Option<Rows>)
    ensures proposed == if Rejects(plus, current, q) then None else Some(Sums(plus, current, q))
  {
    hide Sum, Keys, Sums;
    var values: Rows := map[];
    var todo := Keys(q);
    while todo != {}
      invariant todo <= Keys(q) && values.Keys == Keys(q) - todo
      invariant forall k :: k in values ==>
                Sum(plus, current, q, k).Finite() && values[k] == Sum(plus, current, q, k).Canonical()
      decreases |todo|
    {
      var k :| k in todo;
      var value := Sum(plus, current, q, k);
      if !value.Finite() { return None; }
      values := values[k := value.Canonical()];
      todo := todo - {k};
    }
    AllFinite(plus, current, q, values);
    proposed := Some(values);
  }

  lemma AllFinite(plus: Plus, current: Rows, q: Item, values: Rows)
    requires values.Keys == Keys(q)
    requires forall k :: k in values ==>
             Sum(plus, current, q, k).Finite() && values[k] == Sum(plus, current, q, k).Canonical()
    ensures !Rejects(plus, current, q) && values == Sums(plus, current, q)
  {
    hide Sum, Keys;
  }

  /** Outside `changed` the rows are as they were. */
  ghost predicate ChangedOnly(rows: Rows, current: Rows, changed: set<Key>) {
    && changed <= current.Keys
    && forall k :: k !in changed ==> (k in current <==> k in rows) && (k in rows ==> current[k] == rows[k])
  }

  /** Item i would be rejected after the items before it. */
  predicate RejectedAt(plus: Plus, rows: Rows, items: seq<Item>, i: nat)
    requires i < |items|
  {
    Rejects(plus, MutateAll(plus, rows, items[..i]), items[i])
  }

  function WriteOf(q: Item): E.Write { E.Write(q.metric, q.ts, E.Payload(q.value, q.tags)) }

  /** The event writes of the items that are not rejected, in input order. */
  function Accepted(plus: Plus, rows: Rows, items: seq<Item>): seq<E.Write> {
    if items == [] then []
    else
      var init, q := items[..|items| - 1], items[|items| - 1];
      Accepted(plus, rows, init) + if Rejects(plus, MutateAll(plus, rows, init), q) then [] else [WriteOf(q)]
  }

  lemma AcceptedNext(plus: Plus, rows: Rows, items: seq<Item>, i: nat)
    requires i < |items|
    ensures Accepted(plus, rows, items[..i + 1])
            == Accepted(plus, rows, items[..i]) + if RejectedAt(plus, rows, items, i) then [] else [WriteOf(items[i])]
  {
    hide Rejects, MutateAll;
    assert items[..i + 1][..i] == items[..i];
  }

  lemma {:induction false} NoneAccepted(plus: Plus, rows: Rows, items: seq<Item>)
    requires Accepted(plus, rows, items) == []
    ensures MutateAll(plus, rows, items) == rows
  {
    hide Rejects;
    if items != [] { NoneAccepted(plus, rows, items[..|items| - 1]); }
  }

  lemma MutateNext(plus: Plus, rows: Rows, items: seq<Item>, i: nat)
    requires i < |items|
    ensures MutateAll(plus, rows, items[..i + 1])
            == if RejectedAt(plus, rows, items, i) then MutateAll(plus, rows, items[..i])
               else MutateAll(plus, rows, items[..i]) + Sums(plus, MutateAll(plus, rows, items[..i]), items[i])
  {
    hide Rejects, Sums;
    assert items[..i + 1][..i] == items[..i];
  }

  lemma StillChangedOnly(rows: Rows, current: Rows, changed: set<Key>, more: Rows)
    requires ChangedOnly(rows, current, changed)
    ensures ChangedOnly(rows, current + more, changed + more.Keys)
  {}

  /**
    The staging loop: the same scores as one transaction per item, with exactly the items rejected
    that would have been rejected then, and `changed` names the rows to write.
    */
  method StageItems(plus: Plus, rows: Rows, items: seq<Item>)
    returns (current: Rows, changed: set<Key>, accepted: seq<E.Write>, rejected: set<nat>)
    ensures current == MutateAll(plus, rows, items) && ChangedOnly(rows, current, changed)
    ensures accepted == Accepted(plus, rows, items)
    ensures forall i :: i in rejected <==> 0 <= i < |items| && RejectedAt(plus, rows, items, i)
  {
    hide Rejects, Sums, Keys, MutateAll, Accepted;
    current, changed, accepted, rejected := rows, {}, [], {};
    assert items[..0] == [];
    NothingDone(plus, rows);
    hide ChangedOnly;
    for i := 0 to |items|
      invariant current == MutateAll(plus, rows, items[..i]) && ChangedOnly(rows, current, changed)
      invariant accepted == Accepted(plus, rows, items[..i])
      invariant forall j :: j in rejected <==> 0 <= j < i && RejectedAt(plus, rows, items, j)
    {
      MutateNext(plus, rows, items, i);
      AcceptedNext(plus, rows, items, i);
      var proposed := Propose(plus, current, items[i]);
      if proposed.None? {
        rejected := rejected + {i};
      } else {
        StillChangedOnly(rows, current, changed, proposed.value);
        current := current + proposed.value;
        changed := changed + proposed.value.Keys;
        accepted := accepted + [WriteOf(items[i])];
      }
    }
    assert items[..|items|] == items;
  }

  lemma NothingDone(plus: Plus, rows: Rows)
    ensures MutateAll(plus, rows, []) == rows && ChangedOnly(rows, rows, {}) && Accepted(plus, rows, []) == []
  {}

  // ---- What the staged scores are ----

  function ScoreAt(rows: Rows, k: Key): Option<Float> { if k in rows then Some(rows[k]) else None }

  /** The item credits this entity of this board. */
  predicate Credits(q: Item, k: Key) {
    q.metric == k.metric && k.board in q.boards && q.boards[k.board] == k.entity
  }

  function Added(plus: Plus, score: Option<Float>, value: Float): Float {
    plus(if score.Some? then score.value else ZERO, value).Canonical()
  }

  /** An item is rejected exactly when adding its value to some board's score is not finite. */
  lemma RejectsExactly(plus: Plus, rows: Rows, q: Item)
    ensures Rejects(plus, rows, q) <==>
              exists b :: b in q.boards && !Added(plus, ScoreAt(rows, Key(q.metric, b, q.boards[b])), q.value).Finite()
  {
    if b :| b in q.boards && !Added(plus, ScoreAt(rows, Key(q.metric, b, q.boards[b])), q.value).Finite() {
      assert KeyOf(q, b) in Keys(q);
    }
    if Rejects(plus, rows, q) {
      var k :| k in Keys(q) && !Sum(plus, rows, q, k).Finite();
      var b :| b in q.boards && KeyOf(q, b) == k;
      assert !Added(plus, ScoreAt(rows, Key(q.metric, b, q.boards[b])), q.value).Finite();
    }
  }

  /** A mutation adds its value to the score of every entity it credits, and changes no other score. */
  lemma MutateAdds(plus: Plus, rows: Rows, q: Item, k: Key)
    requires !Rejects(plus, rows, q)
    ensures ScoreAt(Mutate(plus, rows, q), k)
            == if Credits(q, k) then Some(Added(plus, ScoreAt(rows, k), q.value)) else ScoreAt(rows, k)
  {
    if Credits(q, k) { assert KeyOf(q, k.board) == k && k in Keys(q); }
  }

  /** The values of the accepted items that credit the key, in input order. */
  function ValuesFor(plus: Plus, rows: Rows, items: seq<Item>, k: Key): seq<Float> {
    if items == [] then []
    else
      var init, q := items[..|items| - 1], items[|items| - 1];
      ValuesFor(plus, rows, init, k)
      + if !Rejects(plus, MutateAll(plus, rows, init), q) && Credits(q, k) then [q.value] else []
  }

  /** Adding values one after the other, from left to right. */
  function Accumulated(plus: Plus, score: Option<Float>, values: seq<Float>): Option<Float> {
    if values == [] then score
    else Some(Added(plus, Accumulated(plus, score, values[..|values| - 1]), values[|values| - 1]))
  }

  /** Every final score is its old value with the accepted values added from left to right. */
  lemma {:induction false} ScoresAccumulate(plus: Plus, rows: Rows, items: seq<Item>, k: Key)
    ensures ScoreAt(MutateAll(plus, rows, items), k)
            == Accumulated(plus, ScoreAt(rows, k), ValuesFor(plus, rows, items, k))
  {
    hide Rejects, Mutate;
    if items != [] {
      var init, q := items[..|items| - 1], items[|items| - 1];
      ScoresAccumulate(plus, rows, init, k);
      var here, values := MutateAll(plus, rows, init), ValuesFor(plus, rows, init, k);
      assert (values + [q.value])[..|values|] == values && values + [] == values;
      if Rejects(plus, here, q) { RejectedStays(plus, here, q); } else { MutateAdds(plus, here, q, k); }
    }
  }

  lemma RejectedStays(plus: Plus, rows: Rows, q: Item)
    requires Rejects(plus, rows, q)
    ensures Mutate(plus, rows, q) == rows
  {}

  // ---- What the events are ----

  /** The write is the item's event. */
  predicate Describes(w: E.Write, q: Item) {
    w.metric == q.metric && w.ts == q.ts && w.payload.value == q.value && w.payload.tags == q.tags
  }

  /** The indices of the accepted items, in input order. */
  function AcceptedAt(plus: Plus, rows: Rows, items: seq<Item>): (kept: seq<nat>)
    ensures forall i :: i in kept ==> i < |items|
  {
    if items == [] then []
    else
      var init := items[..|items| - 1];
      AcceptedAt(plus, rows, init) + if RejectedAt(plus, rows, items, |init|) then [] else [|init|]
  }

  /** The writes are the events of the items at these indices, which ascend. */
  ghost predicate Matches(ws: seq<E.Write>, kept: seq<nat>, items: seq<Item>) {
    && |ws| == |kept| && Ascends(kept)
    && (forall p :: 0 <= p < |ws| ==> kept[p] < |items| && Describes(ws[p], items[kept[p]]))
  }

  lemma MatchesNext(ws: seq<E.Write>, kept: seq<nat>, items: seq<Item>, q: Item)
    requires Matches(ws, kept, items)
    ensures Matches(ws, kept, items + [q]) && Matches(ws + [WriteOf(q)], kept + [|items|], items + [q])
  {}

  /** The event writes are those of the accepted items: metric, timestamp, value and tags, in order. */
  lemma {:induction false} AcceptedWrites(plus: Plus, rows: Rows, items: seq<Item>)
    ensures Matches(Accepted(plus, rows, items), AcceptedAt(plus, rows, items), items)
    ensures forall i :: 0 <= i < |items| ==> (i in AcceptedAt(plus, rows, items) <==> !RejectedAt(plus, rows, items, i))
  {
    if items != [] {
      hide Rejects, MutateAll, Matches, RejectedAt;
      var n := |items| - 1;
      var init := items[..n];
      AcceptedWrites(plus, rows, init);
      assert items[..n + 1] == items && items == init + [items[n]];
      forall i | 0 <= i < n ensures RejectedAt(plus, rows, items, i) <==> RejectedAt(plus, rows, init, i) {
        SameRejection(plus, rows, items, n, i);
      }
      AcceptedNext(plus, rows, items, n);
      MatchesNext(Accepted(plus, rows, init), AcceptedAt(plus, rows, init), init, items[n]);
      hide Accepted;
      var ws := Accepted(plus, rows, init);
      assert ws + [] == ws;
    }
  }

  lemma SameRejection(plus: Plus, rows: Rows, items: seq<Item>, n: nat, i: nat)
    requires i < n <= |items|
    ensures RejectedAt(plus, rows, items, i) <==> RejectedAt(plus, rows, items[..n], i)
  {
    assert items[..i] == items[..n][..i];
  }

  /** The event table after the batch holds this item's value and tags under this timestamp. */
  predicate Holds(events: E.Events, q: Item, ts: int) {
    E.Id(q.metric, ts) in events && events[E.Id(q.metric, ts)] == E.Payload(q.value, q.tags)
  }

  /**
    What becomes of an accepted item: an automatic one is a new event, later than its metric's clock and
    not before the reading; an explicit one is the event at its timestamp unless a later one replaced it.
    */
  ghost predicate Lands(items: seq<Item>, rejected: set<nat>, i: nat, events: E.Events, clocks: E.Clocks,
                        reading: Bytes -> int, events': E.Events)
    requires i < |items|
  {
    var q := items[i];
    if q.ts == 0 then
      exists t :: Holds(events', q, t) && E.Id(q.metric, t) !in events && reading(q.metric) <= t
                  && (if q.metric in clocks then clocks[q.metric] else 0) < t
    else
      || Holds(events', q, q.ts)
      || exists j :: i < j < |items| && j !in rejected && items[j].metric == q.metric && items[j].ts == q.ts
  }

  lemma ItemLands(plus: Plus, rows: Rows, items: seq<Item>, rejected: set<nat>, i: nat, events: E.Events,
                  clocks: E.Clocks, reading: Bytes -> int, times: map<Bytes, seq<int>>)
    requires forall j :: j in rejected <==> 0 <= j < |items| && RejectedAt(plus, rows, items, j)
    requires i < |items| && i !in rejected && E.Allocated(Accepted(plus, rows, items), events, clocks, reading, times)
    ensures Lands(items, rejected, i, events, clocks, reading,
                  E.WriteAll(events, E.Stamped(Accepted(plus, rows, items), times)))
  {
    hide Accepted, AcceptedAt, RejectedAt, E.Allocated, E.WriteAll, E.Autos;
    var ws, kept := Accepted(plus, rows, items), AcceptedAt(plus, rows, items);
    AcceptedWrites(plus, rows, items);
    var p :| 0 <= p < |kept| && kept[p] == i;
    E.EventsLand(ws, events, clocks, reading, times);
    var st := E.Stamped(ws, times);
    assert Describes(ws[p], items[i]);
    if ws[p].ts == 0 {
      E.StampIsLate(ws, events, clocks, reading, times, p);
      assert Holds(E.WriteAll(events, st), items[i], st[p].ts);
    } else if forall j :: i < j < |items| && j !in rejected && items[j].metric == items[i].metric ==>
                items[j].ts != items[i].ts
    {
      forall r | p < r < |st| ensures E.IdOf(st[r]) != E.IdOf(st[p]) {
        assert Describes(ws[r], items[kept[r]]) && kept[r] in kept;
        if ws[r].ts == 0 { E.AutomaticIsAlone(ws, events, clocks, reading, times, r); }
      }
      assert E.IsLast(st, p);
    }
  }

  // ---- One diff per metric ----

  function ChangeOf(rows: Rows, current: Rows, k: Key): Change
    requires k in current
  {
    Change(k.board, k.entity, if k in rows then Some(rows[k]) else None, Some(current[k]))
  }

  function ChangesFor(rows: Rows, current: Rows, keys: seq<Key>, m: Bytes): seq<Change>
    requires forall k :: k in keys ==> k in current
  {
    if keys == [] then []
    else
      var k, init := keys[|keys| - 1], keys[..|keys| - 1];
      ChangesFor(rows, current, init, m) + if k.metric == m then [ChangeOf(rows, current, k)] else []
  }

  lemma ChangesNext(rows: Rows, current: Rows, keys: seq<Key>, i: nat, m: Bytes)
    requires (forall k :: k in keys ==> k in current) && i < |keys|
    ensures ChangesFor(rows, current, keys[..i + 1], m)
            == ChangesFor(rows, current, keys[..i], m)
               + if keys[i].metric == m then [ChangeOf(rows, current, keys[i])] else []
  {
    hide ChangeOf;
    assert keys[..i + 1][..i] == keys[..i];
  }

  ghost predicate Collected(rows: Rows, current: Rows, keys: seq<Key>, diffs: map<Bytes, seq<Change>>)
    requires forall k :: k in keys ==> k in current
  {
    && (forall k :: k in keys ==> k.metric in diffs)
    && (forall m :: m in diffs ==> diffs[m] == ChangesFor(rows, current, keys, m) != [])
    && (forall m :: m !in diffs ==> ChangesFor(rows, current, keys, m) == [])
  }

  lemma CollectNext(rows: Rows, current: Rows, keys: seq<Key>, i: nat, diffs: map<Bytes, seq<Change>>)
    requires (forall k :: k in keys ==> k in current) && i < |keys| && Collected(rows, current, keys[..i], diffs)
    ensures var k := keys[i];
            Collected(rows, current, keys[..i + 1],
                      diffs[k.metric := (if k.metric in diffs then diffs[k.metric] else [])
                        + [ChangeOf(rows, current, k)]])
  {
    hide ChangesFor, ChangeOf;
    assert keys[..i + 1] == keys[..i] + [keys[i]];
    forall m ensures ChangesFor(rows, current, keys[..i + 1], m)
                     == ChangesFor(rows, current, keys[..i], m)
                        + if keys[i].metric == m then [ChangeOf(rows, current, keys[i])] else [] {
      ChangesNext(rows, current, keys, i, m);
    }
  }

  /** The loop over the final keys that collects the publications. */
  method Publications(rows: Rows, current: Rows, keys: seq<Key>) returns (diffs: map<Bytes, seq<Change>>)
    requires forall k :: k in keys ==> k in current
    ensures Collected(rows, current, keys, diffs)
  {
    diffs := map[];
    for i := 0 to |keys|
      invariant Collected(rows, current, keys[..i], diffs)
    {
      hide Collected, ChangesFor, ChangeOf;
      CollectNext(rows, current, keys, i, diffs);
      var k := keys[i];
      var before := if k.metric in diffs then diffs[k.metric] else [];
      diffs := diffs[k.metric := before + [ChangeOf(rows, current, k)]];
    }
    assert keys[..|keys|] == keys;
  }

  /** The scores of one metric are the rows of that metric. */
  ghost predicate Represents(s: Scores, rows: Rows, m: Bytes) {
    forall b, e :: Lookup(s, b, e) == if Key(m, b, e) in rows then Some(rows[Key(m, b, e)]) else None
  }

  ghost predicate Distinct(keys: seq<Key>) { forall i, j :: 0 <= i < j < |keys| ==> keys[i] != keys[j] }

  function Written(rows: Rows, current: Rows, keys: seq<Key>): Rows
    requires forall k :: k in keys ==> k in current
  {
    rows + map k | k in keys :: current[k]
  }

  lemma {:induction false} PutAllLast(s: Scores, changes: seq<Change>, ch: Change)
    ensures PutAll(s, changes + [ch]) == Put(PutAll(s, changes), ch)
    decreases |changes|
  {
    if changes == [] {
      assert ([] + [ch])[1..] == [];
    } else {
      assert (changes + [ch])[1..] == changes[1..] + [ch];
      PutAllLast(Put(s, changes[0]), changes[1..], ch);
    }
  }

  lemma PutRepresents(s: Scores, rows: Rows, m: Bytes, k: Key, value: Score, was: Option<Score>)
    requires Represents(s, rows, m)
    ensures k.metric == m ==> Represents(Put(s, Change(k.board, k.entity, was, Some(value))), rows[k := value], m)
    ensures k.metric != m ==> Represents(s, rows[k := value], m)
  {
    if k.metric == m {
      var s' := Put(s, Change(k.board, k.entity, was, Some(value)));
      forall b, e
        ensures Lookup(s', b, e)
                == if Key(m, b, e) in rows[k := value] then Some(rows[k := value][Key(m, b, e)]) else None
      {
        assert Lookup(s, b, e) == if Key(m, b, e) in rows then Some(rows[Key(m, b, e)]) else None;
      }
    }
  }

  /** Applying a metric's diff to its old scores gives its new scores. */
  lemma {:induction false} DiffIsNetEffect(rows: Rows, current: Rows, keys: seq<Key>, m: Bytes, s: Scores)
    requires (forall k :: k in keys ==> k in current) && Represents(s, rows, m)
    ensures Represents(PutAll(s, ChangesFor(rows, current, keys, m)), Written(rows, current, keys), m)
  {
    hide Represents, Put, PutAll, ChangesFor, Written;
    if keys == [] {
      NoChanges(rows, current, m, s);
    } else {
      var k, init := keys[|keys| - 1], keys[..|keys| - 1];
      assert keys == init + [k] && keys[..|keys| - 1 + 1] == keys;
      DiffIsNetEffect(rows, current, init, m, s);
      var changes := ChangesFor(rows, current, init, m);
      PutRepresents(PutAll(s, changes), Written(rows, current, init), m, k, current[k], ChangeOf(rows, current, k).was);
      PutAllLast(s, changes, ChangeOf(rows, current, k));
      ChangesNext(rows, current, keys, |keys| - 1, m);
      WrittenLast(rows, current, init, k);
      assert changes + [] == changes;
    }
  }

  lemma NoChanges(rows: Rows, current: Rows, m: Bytes, s: Scores)
    ensures ChangesFor(rows, current, [], m) == [] && PutAll(s, []) == s && Written(rows, current, []) == rows
  {}

  lemma WrittenLast(rows: Rows, current: Rows, init: seq<Key>, k: Key)
    requires forall x :: x in init + [k] ==> x in current
    ensures k in init + [k] && (forall x :: x in init ==> x in init + [k])
    ensures Written(rows, current, init + [k]) == Written(rows, current, init)[k := current[k]]
  {}

  /** Every change of a diff belongs to one final key. */
  lemma {:induction false} ChangeHasKey(rows: Rows, current: Rows, keys: seq<Key>, m: Bytes, i: nat)
    requires (forall k :: k in keys ==> k in current) && i < |ChangesFor(rows, current, keys, m)|
    ensures var ch := ChangesFor(rows, current, keys, m)[i];
            Key(m, ch.board, ch.entity) in keys && ch == ChangeOf(rows, current, Key(m, ch.board, ch.entity))
  {
    var k, init := keys[|keys| - 1], keys[..|keys| - 1];
    assert keys == init + [k];
    if i < |ChangesFor(rows, current, init, m)| { ChangeHasKey(rows, current, init, m, i); }
  }

  lemma {:induction false} ChangesDistinct(rows: Rows, current: Rows, keys: seq<Key>, m: Bytes)
    requires (forall k :: k in keys ==> k in current) && Distinct(keys)
    ensures var cs := ChangesFor(rows, current, keys, m);
            forall i, j :: 0 <= i < j < |cs| ==> cs[i].board != cs[j].board || cs[i].entity != cs[j].entity
  {
    if keys != [] {
      var k, init := keys[|keys| - 1], keys[..|keys| - 1];
      assert keys == init + [k];
      ChangesDistinct(rows, current, init, m);
      var cs := ChangesFor(rows, current, init, m);
      forall i | 0 <= i < |cs| && k.metric == m ensures cs[i].board != k.board || cs[i].entity != k.entity {
        ChangeHasKey(rows, current, init, m, i);
        assert k !in init;
      }
    }
  }

  /**
    What a committed batch publishes for a metric is one upsert of the projection protocol: it names the
    rows' actual previous values, each row once, and leads from the old scores to the new ones.
    */
  lemma DiffIsUpsert(rows: Rows, current: Rows, keys: seq<Key>, m: Bytes, s: Scores)
    requires (forall k :: k in keys ==> k in current) && Distinct(keys) && Represents(s, rows, m)
    ensures var changes := ChangesFor(rows, current, keys, m);
            && Valid(changes, s) && (forall i :: 0 <= i < |changes| ==> changes[i].now.Some?)
            && Represents(PutAll(s, changes), Written(rows, current, keys), m)
  {
    var changes := ChangesFor(rows, current, keys, m);
    ChangesDistinct(rows, current, keys, m);
    forall i | 0 <= i < |changes|
      ensures changes[i].was == Lookup(s, changes[i].board, changes[i].entity) && changes[i].now.Some?
    {
      ChangeHasKey(rows, current, keys, m, i);
    }
    ProjectionProtocol.FreshChangesValid(changes, s);
    DiffIsNetEffect(rows, current, keys, m, s);
  }

  /** The changed keys, in any map order. */
  method ListKeys(changed: set<Key>) returns (keys: seq<Key>)
    ensures Distinct(keys) && forall k :: k in keys <==> k in changed
  {
    keys := [];
    var todo := changed;
    while todo != {}
      invariant todo <= changed && Distinct(keys) && forall k :: k in keys <==> k in changed - todo
      decreases |todo|
    {
      var k :| k in todo;
      assert k !in keys;
      keys := keys + [k];
      todo := todo - {k};
    }
  }

  /** One row write per changed key and one diff per metric. */
  method StoreScores(rows: Rows, current: Rows, changed: set<Key>, ghost scores: map<Bytes, Scores>)
    returns (rows': Rows, diffs: map<Bytes, seq<Change>>)
    requires ChangedOnly(rows, current, changed) && forall m :: m in scores ==> Represents(scores[m], rows, m)
    ensures rows' == current && Published(rows', diffs, scores)
  {
    hide Represents, Valid, PutAll, ChangesFor, ChangedOnly, Distinct, Collected;
    ChangedKeys(rows, current, changed);
    var keys := ListKeys(changed);
    WrittenIsCurrent(rows, current, changed, keys);
    rows' := Written(rows, current, keys);
    diffs := Publications(rows, current, keys);
    forall m | m in scores && m in diffs
      ensures Valid(diffs[m], scores[m]) && Represents(PutAll(scores[m], diffs[m]), rows', m)
    {
      CollectedAt(rows, current, keys, diffs, m);
      DiffIsUpsert(rows, current, keys, m, scores[m]);
    }
    forall m | m in scores && m !in diffs ensures Represents(scores[m], rows', m) {
      CollectedAt(rows, current, keys, diffs, m);
      DiffIsNetEffect(rows, current, keys, m, scores[m]);
      NoChanges(rows, current, m, scores[m]);
    }
  }

  /** Every metric's diff leads from its old scores to its rows, and metrics without a diff have not changed. */
  ghost predicate Published(rows: Rows, diffs: map<Bytes, seq<Change>>, scores: map<Bytes, Scores>) {
    && (forall m :: m in scores && m in diffs ==>
       Valid(diffs[m], scores[m]) && Represents(PutAll(scores[m], diffs[m]), rows, m))
    && (forall m :: m in scores && m !in diffs ==> Represents(scores[m], rows, m))
  }

  /**
    The whole transaction: staged in input order, timestamps allocated, each event and score row written
    once, each metric published once. It fails exactly when a metric cannot allocate its automatic
    timestamps, and then nothing changes.
    */
  method CopyWrites(plus: Plus, rows: Rows, events: E.Events, clocks: E.Clocks, items: seq<Item>, reading: Bytes -> int,
                    ghost scores: map<Bytes, Scores>)
    returns (ok: bool, rows': Rows, events': E.Events, clocks': E.Clocks, times: map<Bytes, seq<int>>,
             diffs: map<Bytes, seq<Change>>, rejected: set<nat>)
    requires (forall m :: m in scores ==> Represents(scores[m], rows, m))
             && forall m :: reading(m) <= Timestamps.MAX_INT64
    ensures forall i :: i in rejected <==> 0 <= i < |items| && RejectedAt(plus, rows, items, i)
    ensures ok <==> forall m :: !E.Fails(Accepted(plus, rows, items), events, clocks, reading, m)
    ensures !ok ==> rows' == rows && events' == events && clocks' == clocks && diffs == map[]
    ensures ok ==> rows' == MutateAll(plus, rows, items) && Published(rows', diffs, scores)
    ensures ok ==> var ws := Accepted(plus, rows, items);
                   && E.Allocated(ws, events, clocks, reading, times) && E.ClocksFollow(ws, clocks, times, clocks')
                   && events' == E.WriteAll(events, E.Stamped(ws, times))
    ensures ok ==> forall k :: ScoreAt(rows', k) == Accumulated(plus, ScoreAt(rows, k), ValuesFor(plus, rows, items, k))
    ensures ok ==> forall i :: 0 <= i < |items| && i !in rejected ==>
                     Lands(items, rejected, i, events, clocks, reading, events')
  {
    hide Represents, Valid, PutAll, Rejects, ChangedOnly, MutateAll, Accepted, E.Fails, E.Allocated, E.ClocksFollow,
      E.WriteAll, Lands, RejectedAt, ScoreAt, Accumulated, ValuesFor;
    var current, changed, accepted;
    current, changed, accepted, rejected := StageItems(plus, rows, items);
    Staged(plus, rows, items);
    if accepted == [] {
      NoneAccepted(plus, rows, items);
      E.NothingStored(events, clocks, reading);
      LandAll(plus, rows, items, rejected, events, clocks, reading, map[]);
      return true, rows, events, clocks, map[], map[], rejected;
    }
    ok, events', clocks', times := E.StoreEvents(accepted, events, clocks, reading);
    if !ok { return false, rows, events, clocks, times, map[], rejected; }
    LandAll(plus, rows, items, rejected, events, clocks, reading, times);
    rows', diffs := StoreScores(rows, current, changed, scores);
  }

  lemma Staged(plus: Plus, rows: Rows, items: seq<Item>)
    ensures forall k :: ScoreAt(MutateAll(plus, rows, items), k)
                        == Accumulated(plus, ScoreAt(rows, k), ValuesFor(plus, rows, items, k))
  {
    forall k ensures ScoreAt(MutateAll(plus, rows, items), k)
                     == Accumulated(plus, ScoreAt(rows, k), ValuesFor(plus, rows, items, k)) {
      ScoresAccumulate(plus, rows, items, k);
    }
  }

  lemma LandAll(plus: Plus, rows: Rows, items: seq<Item>, rejected: set<nat>, events: E.Events, clocks: E.Clocks,
                reading: Bytes -> int, times: map<Bytes, seq<int>>)
    requires forall j :: j in rejected <==> 0 <= j < |items| && RejectedAt(plus, rows, items, j)
    requires E.Allocated(Accepted(plus, rows, items), events, clocks, reading, times)
    ensures var events' := E.WriteAll(events, E.Stamped(Accepted(plus, rows, items), times));
            forall i :: 0 <= i < |items| && i !in rejected ==>
              Lands(items, rejected, i, events, clocks, reading, events')
  {
    hide Lands, Accepted, RejectedAt, E.Allocated, E.WriteAll;
    var events' := E.WriteAll(events, E.Stamped(Accepted(plus, rows, items), times));
    forall i | 0 <= i < |items| && i !in rejected ensures Lands(items, rejected, i, events, clocks, reading, events') {
      ItemLands(plus, rows, items, rejected, i, events, clocks, reading, times);
    }
  }

  lemma ChangedKeys(rows: Rows, current: Rows, changed: set<Key>)
    requires ChangedOnly(rows, current, changed)
    ensures changed <= current.Keys
  {}

  lemma WrittenIsCurrent(rows: Rows, current: Rows, changed: set<Key>, keys: seq<Key>)
    requires ChangedOnly(rows, current, changed) && forall k :: k in keys <==> k in changed
    ensures Written(rows, current, keys) == current
  {}

  lemma CollectedAt(rows: Rows, current: Rows, keys: seq<Key>, diffs: map<Bytes, seq<Change>>, m: Bytes)
    requires (forall k :: k in keys ==> k in current) && Collected(rows, current, keys, diffs)
    ensures ChangesFor(rows, current, keys, m) == if m in diffs then diffs[m] else []
  {}
}
