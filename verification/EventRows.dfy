/** The event rows of one ingest transaction (internal/analytics/batch.go): timestamps and overwrites. */
module EventRows {
  import opened ByteStrings
  import opened MemberCodec
  import T = Timestamps

  datatype Payload = Payload(value: Float, tags: map<Bytes, Bytes>)

  /** An accepted WRITE; timestamp zero asks for an automatic one. */
  datatype Write = Write(metric: Bytes, ts: int, payload: Payload)

  datatype Id = Id(metric: Bytes, ts: int)

  /** flame_events. */
  type Events = map<Id, Payload>

  type Clocks = map<Bytes, int>

  function IdOf(w: Write): Id { Id(w.metric, w.ts) }

  predicate Automatic(w: Write, m: Bytes) { w.metric == m && w.ts == 0 }

  /** How many writes ask for an automatic timestamp of the metric. */
  function Autos(ws: seq<Write>, m: Bytes): nat {
    if ws == [] then 0 else Autos(ws[..|ws| - 1], m) + if Automatic(ws[|ws| - 1], m) then 1 else 0
  }

  function Explicit(ws: seq<Write>, m: Bytes): set<int> {
    set w | w in ws && w.metric == m && w.ts != 0 :: w.ts
  }

  lemma AutosNext(ws: seq<Write>, i: nat, m: Bytes)
    requires i < |ws|
    ensures Autos(ws[..i + 1], m) == Autos(ws[..i], m) + if Automatic(ws[i], m) then 1 else 0
  {
    assert ws[..i + 1][..i] == ws[..i];
  }

  lemma {:induction false} AutosGrow(ws: seq<Write>, i: nat, j: nat, m: Bytes)
    requires i <= j <= |ws|
    ensures Autos(ws[..i], m) <= Autos(ws[..j], m)
    decreases j
  {
    if i < j {
      AutosNext(ws, j - 1, m);
      AutosGrow(ws, i, j - 1, m);
    }
  }

  // ---- Timestamps by position ----

  /** Every metric got as many timestamps as it asked for. */
  ghost predicate Enough(ws: seq<Write>, times: map<Bytes, seq<int>>) {
    forall m :: Autos(ws, m) > 0 ==> m in times && |times[m]| == Autos(ws, m)
  }

  /** The k-th automatic write of a metric gets the metric's k-th timestamp. */
  ghost function Stamp(ws: seq<Write>, times: map<Bytes, seq<int>>, i: nat): int
    requires i < |ws|
  {
    var m, k := ws[i].metric, Autos(ws[..i], ws[i].metric);
    if ws[i].ts != 0 then ws[i].ts else if m in times && k < |times[m]| then times[m][k] else 0
  }

  ghost function Stamped(ws: seq<Write>, times: map<Bytes, seq<int>>): (r: seq<Write>)
    ensures |r| == |ws| && forall i :: 0 <= i < |ws| ==> r[i] == ws[i].(ts := Stamp(ws, times, i))
  {
    seq(|ws|, i requires 0 <= i < |ws| => ws[i].(ts := Stamp(ws, times, i)))
  }

  lemma PositionExists(ws: seq<Write>, i: nat, m: Bytes)
    requires i < |ws| && Automatic(ws[i], m)
    ensures Autos(ws[..i], m) < Autos(ws, m)
  {
    AutosNext(ws, i, m);
    AutosGrow(ws, i + 1, |ws|, m);
    assert ws[..|ws|] == ws;
  }

  function At(counts: map<Bytes, nat>, m: Bytes): nat { if m in counts then counts[m] else 0 }

  /** How many automatic timestamps each metric needs, and which positions explicit writes reserve. */
  method Count(ws: seq<Write>) returns (counts: map<Bytes, nat>, explicit: map<Bytes, set<int>>)
    ensures forall m :: At(counts, m) == Autos(ws, m) && (m in counts ==> counts[m] > 0)
    ensures forall m :: T.Occupied(explicit, m) == Explicit(ws, m)
  {
    hide Autos;
    counts, explicit := map[], map[];
    NoWrites();
    assert ws[..0] == [];
    for i := 0 to |ws|
      invariant forall m :: At(counts, m) == Autos(ws[..i], m) && (m in counts ==> counts[m] > 0)
      invariant forall m :: T.Occupied(explicit, m) == Explicit(ws[..i], m)
    {
      var w := ws[i];
      hide Explicit;
      forall m ensures Autos(ws[..i + 1], m) == Autos(ws[..i], m) + if Automatic(w, m) then 1 else 0 {
        AutosNext(ws, i, m);
      }
      forall m
        ensures Explicit(ws[..i + 1], m)
                == if w.metric == m && w.ts != 0 then Explicit(ws[..i], m) + {w.ts} else Explicit(ws[..i], m)
      {
        ExplicitNext(ws, i, m);
      }
      if w.ts == 0 {
        counts := counts[w.metric := At(counts, w.metric) + 1];
      } else {
        ghost var was := explicit;
        explicit := explicit[w.metric := T.Occupied(explicit, w.metric) + {w.ts}];
        forall m
          ensures T.Occupied(explicit, m) == T.Occupied(was, m) + if w.metric == m then {w.ts} else {}
        {}
      }
    }
    assert ws[..|ws|] == ws;
  }

  lemma NoWrites()
    ensures forall m :: Autos([], m) == 0 && Explicit([], m) == {}
  {}

  lemma ExplicitNext(ws: seq<Write>, i: nat, m: Bytes)
    requires i < |ws|
    ensures Explicit(ws[..i + 1], m)
            == if ws[i].metric == m && ws[i].ts != 0 then Explicit(ws[..i], m) + {ws[i].ts} else Explicit(ws[..i], m)
  {
    assert ws[..i + 1] == ws[..i] + [ws[i]];
  }

  /** The loop that hands out the timestamps in input order. */
  method Assign(ws: seq<Write>, times: map<Bytes, seq<int>>) returns (stamped: seq<Write>)
    requires Enough(ws, times)
    ensures stamped == Stamped(ws, times)
  {
    hide Autos;
    stamped := [];
    var positions: map<Bytes, nat> := map[];
    NoWrites();
    assert ws[..0] == [];
    for i := 0 to |ws|
      invariant |stamped| == i && stamped == Stamped(ws, times)[..i]
      invariant forall m :: At(positions, m) == Autos(ws[..i], m)
    {
      var w := ws[i];
      forall m ensures Autos(ws[..i + 1], m) == Autos(ws[..i], m) + if Automatic(w, m) then 1 else 0 {
        AutosNext(ws, i, m);
      }
      if w.ts == 0 {
        PositionExists(ws, i, w.metric);
        var k := At(positions, w.metric);
        stamped := stamped + [w.(ts := times[w.metric][k])];
        ghost var were := positions;
        positions := positions[w.metric := k + 1];
        forall m ensures At(positions, m) == At(were, m) + if w.metric == m then 1 else 0 {}
      } else {
        stamped := stamped + [w];
      }
    }
  }

  // ---- One row per identity ----

  /** The writes one after the other. */
  function WriteAll(events: Events, ws: seq<Write>): Events {
    if ws == [] then events else WriteAll(events, ws[..|ws| - 1])[IdOf(ws[|ws| - 1]) := ws[|ws| - 1].payload]
  }

  function Ids(ws: seq<Write>): set<Id> { set w | w in ws :: IdOf(w) }

  /** DISTINCT ON (metric, ts) ... ORDER BY ord DESC: the last payload of an identity. */
  function LastPayload(ws: seq<Write>, id: Id): Payload
    requires id in Ids(ws)
  {
    var init, last := ws[..|ws| - 1], ws[|ws| - 1];
    assert ws == init + [last];
    if IdOf(last) == id then last.payload else LastPayload(init, id)
  }

  /** INSERT ... ON CONFLICT DO UPDATE of the deduplicated rows. */
  function Upsert(events: Events, ws: seq<Write>): Events {
    events + map id | id in Ids(ws) :: LastPayload(ws, id)
  }

  lemma IdsLast(ws: seq<Write>, w: Write)
    ensures Ids(ws + [w]) == Ids(ws) + {IdOf(w)}
  {}

  lemma LastPayloadNext(ws: seq<Write>, w: Write, id: Id)
    requires id in Ids(ws + [w])
    ensures id != IdOf(w) ==> id in Ids(ws)
    ensures LastPayload(ws + [w], id) == if id == IdOf(w) then w.payload else LastPayload(ws, id)
  {
    IdsLast(ws, w);
    assert (ws + [w])[..|ws|] == ws;
  }

  lemma WriteAllNext(events: Events, ws: seq<Write>, w: Write)
    ensures WriteAll(events, ws + [w]) == WriteAll(events, ws)[IdOf(w) := w.payload]
  {
    assert (ws + [w])[..|ws|] == ws;
  }

  lemma UpsertNext(events: Events, ws: seq<Write>, w: Write)
    ensures Upsert(events, ws + [w]) == Upsert(events, ws)[IdOf(w) := w.payload]
  {
    hide LastPayload, Ids;
    IdsLast(ws, w);
    forall id | id in Ids(ws + [w])
      ensures (id != IdOf(w) ==> id in Ids(ws)) && LastPayload(ws + [w], id)
              == if id == IdOf(w) then w.payload else LastPayload(ws, id)
    {
      LastPayloadNext(ws, w, id);
    }
  }

  /** One deduplicated upsert leaves what the writes would leave one after the other. */
  lemma {:induction false} UpsertIsSequential(events: Events, ws: seq<Write>)
    ensures Upsert(events, ws) == WriteAll(events, ws)
  {
    if ws != [] {
      hide Upsert, WriteAll;
      var init, last := ws[..|ws| - 1], ws[|ws| - 1];
      assert ws == init + [last];
      UpsertIsSequential(events, init);
      UpsertNext(events, init, last);
      WriteAllNext(events, init, last);
    }
  }

  ghost predicate IsLast(ws: seq<Write>, i: nat)
    requires i < |ws|
  {
    forall j :: i < j < |ws| ==> IdOf(ws[j]) != IdOf(ws[i])
  }

  /** The last write of an identity wins, and no other row changes. */
  lemma {:induction false} LastWins(events: Events, ws: seq<Write>)
    ensures forall i :: 0 <= i < |ws| && IsLast(ws, i) ==>
              IdOf(ws[i]) in WriteAll(events, ws) && WriteAll(events, ws)[IdOf(ws[i])] == ws[i].payload
    ensures forall id :: id !in Ids(ws) ==>
              (id in WriteAll(events, ws) <==> id in events)
                && (id in events ==> WriteAll(events, ws)[id] == events[id])
  {
    if ws != [] {
      var init, last := ws[..|ws| - 1], ws[|ws| - 1];
      assert ws == init + [last];
      LastWins(events, init);
      assert Ids(ws) == Ids(init) + {IdOf(last)};
      forall i | 0 <= i < |init| && IsLast(ws, i) ensures IsLast(init, i) && IdOf(init[i]) != IdOf(last) {
        assert IdOf(ws[|ws| - 1]) != IdOf(ws[i]);
        forall j | i < j < |init| ensures IdOf(init[j]) != IdOf(init[i]) { assert ws[j] == init[j]; }
      }
    }
  }

  // ---- Allocation and events together ----

  /** Timestamps of the metric's events. */
  function Times(events: Events, m: Bytes): set<int> { set id | id in events && id.metric == m :: id.ts }

  function AllTimes(events: Events): map<Bytes, set<int>> {
    map m | m in (set id | id in events :: id.metric) :: Times(events, m)
  }

  /** Every metric's automatic timestamps are the first positions free of stored and of explicit events. */
  ghost predicate Allocated(ws: seq<Write>, events: Events, clocks: Clocks, reading: Bytes -> int,
                            times: map<Bytes, seq<int>>) {
    forall m :: Autos(ws, m) > 0 ==>
      m in times
      && T.Earliest(times[m], Autos(ws, m), if m in clocks then clocks[m] else 0, reading(m),
                    Times(events, m) + Explicit(ws, m))
  }

  lemma AllocatedFacts(ws: seq<Write>, events: Events, clocks: Clocks, reading: Bytes -> int,
                       times: map<Bytes, seq<int>>, m: Bytes)
    requires Allocated(ws, events, clocks, reading, times) && Autos(ws, m) > 0
    ensures m in times && |times[m]| == Autos(ws, m)
    ensures forall k :: 0 <= k < |times[m]| ==> times[m][k] !in Times(events, m) && times[m][k] !in Explicit(ws, m)
    ensures forall j, k :: 0 <= j < k < |times[m]| ==> times[m][j] < times[m][k]
  {
    hide Autos, Explicit, Times;
    forall k | 0 <= k < |times[m]| ensures times[m][k] !in Times(events, m) && times[m][k] !in Explicit(ws, m) {
      assert times[m][k] in times[m];
    }
  }

  /** An automatic write has an identity of its own: no stored event and no other write of the batch has it. */
  lemma AutomaticIsAlone(ws: seq<Write>, events: Events, clocks: Clocks, reading: Bytes -> int,
                         times: map<Bytes, seq<int>>, i: nat)
    requires Allocated(ws, events, clocks, reading, times) && i < |ws| && ws[i].ts == 0
    ensures var st := Stamped(ws, times);
            IdOf(st[i]) !in events && forall j :: 0 <= j < |ws| && j != i ==> IdOf(st[j]) != IdOf(st[i])
  {
    hide Autos, Allocated;
    var m, st := ws[i].metric, Stamped(ws, times);
    PositionExists(ws, i, m);
    AllocatedFacts(ws, events, clocks, reading, times, m);
    var k := Autos(ws[..i], m);
    assert st[i].ts == times[m][k];
    var ts := st[i].ts;
    assert Id(m, ts) in events ==> ts in Times(events, m);
    forall j | 0 <= j < |ws| && j != i ensures IdOf(st[j]) != IdOf(st[i]) {
      if ws[j].metric == m {
        if ws[j].ts != 0 {
          assert ws[j] in ws && ws[j].ts in Explicit(ws, m);
        } else {
          PositionExists(ws, j, m);
          PositionsDiffer(ws, i, j, m);
        }
      }
    }
  }

  /** Its timestamp is later than its metric's clock and not before the reading. */
  lemma StampIsLate(ws: seq<Write>, events: Events, clocks: Clocks, reading: Bytes -> int,
                    times: map<Bytes, seq<int>>, i: nat)
    requires Allocated(ws, events, clocks, reading, times) && i < |ws| && ws[i].ts == 0
    ensures var m, t := ws[i].metric, Stamped(ws, times)[i].ts;
            reading(m) <= t && (if m in clocks then clocks[m] else 0) < t
  {
    hide Autos;
    var m := ws[i].metric;
    PositionExists(ws, i, m);
    assert times[m][Autos(ws[..i], m)] in times[m];
  }

  lemma PositionsDiffer(ws: seq<Write>, i: nat, j: nat, m: Bytes)
    requires i < |ws| && j < |ws| && i != j && Automatic(ws[i], m) && Automatic(ws[j], m)
    ensures Autos(ws[..i], m) != Autos(ws[..j], m)
  {
    hide Autos;
    AutosNext(ws, i, m);
    AutosNext(ws, j, m);
    if i < j { AutosGrow(ws, i + 1, j, m); } else { AutosGrow(ws, j + 1, i, m); }
  }

  /**
    Every accepted write lands: an automatic one as a new row of its own, an explicit one unless a
    later write of the batch has its identity; and no other row changes.
    */
  lemma EventsLand(ws: seq<Write>, events: Events, clocks: Clocks, reading: Bytes -> int, times: map<Bytes, seq<int>>)
    requires Allocated(ws, events, clocks, reading, times)
    ensures var st := Stamped(ws, times);
            var after := WriteAll(events, st);
            && (forall i :: 0 <= i < |ws| && ws[i].ts == 0 ==>
                  IdOf(st[i]) !in events && IdOf(st[i]) in after && after[IdOf(st[i])] == ws[i].payload)
            && (forall i :: 0 <= i < |ws| && IsLast(st, i) ==>
                  IdOf(st[i]) in after && after[IdOf(st[i])] == ws[i].payload)
            && (forall id :: id !in Ids(st) ==>
               (id in after <==> id in events) && (id in events ==> after[id] == events[id]))
  {
    hide Allocated, WriteAll;
    var st := Stamped(ws, times);
    LastWins(events, st);
    forall i | 0 <= i < |ws| && ws[i].ts == 0 ensures IsLast(st, i) && IdOf(st[i]) !in events {
      AutomaticIsAlone(ws, events, clocks, reading, times, i);
    }
  }

  // ---- The event half of the transaction ----

  ghost predicate Fails(ws: seq<Write>, events: Events, clocks: Clocks, reading: Bytes -> int, m: Bytes) {
    Autos(ws, m) > 0
    && T.CannotAllocate(T.Request(m, Autos(ws, m), Explicit(ws, m)), reading(m), AllTimes(events), clocks)
  }

  /** One request per metric with automatic writes, in any order of the metrics. */
  method Requests(counts: map<Bytes, nat>, explicit: map<Bytes, set<int>>, reading: Bytes -> int)
    returns (requests: seq<T.Request>, readings: seq<int>)
    requires (forall m :: m in counts ==> counts[m] > 0) && forall m :: reading(m) <= T.MAX_INT64
    ensures T.Requested(requests, readings)
    ensures forall i :: 0 <= i < |requests| ==>
              var q := requests[i];
              && q.metric in counts && readings[i] == reading(q.metric)
              && q == T.Request(q.metric, counts[q.metric], T.Occupied(explicit, q.metric))
    ensures forall m :: m in counts ==> exists i :: 0 <= i < |requests| && requests[i].metric == m
  {
    requests, readings := [], [];
    var todo := counts.Keys;
    while todo != {}
      invariant todo <= counts.Keys && T.Requested(requests, readings)
      invariant forall i :: 0 <= i < |requests| ==>
        var q := requests[i];
        && q.metric in counts && q.metric !in todo && readings[i] == reading(q.metric)
        && q == T.Request(q.metric, counts[q.metric], T.Occupied(explicit, q.metric))
      invariant forall m :: m in counts && m !in todo ==> exists i :: 0 <= i < |requests| && requests[i].metric == m
      decreases |todo|
    {
      var m :| m in todo;
      ghost var were := requests;
      requests := requests + [T.Request(m, counts[m], T.Occupied(explicit, m))];
      readings := readings + [reading(m)];
      assert requests[|were|].metric == m && forall i :: 0 <= i < |were| ==> requests[i] == were[i];
      todo := todo - {m};
    }
  }

  lemma OccupiedTimes(events: Events, m: Bytes)
    ensures T.Occupied(AllTimes(events), m) == Times(events, m)
  {}

  /** A metric's clock is its last automatic timestamp. */
  ghost predicate ClocksFollow(ws: seq<Write>, clocks: Clocks, times: map<Bytes, seq<int>>, clocks': Clocks) {
    forall m ::
      if Autos(ws, m) > 0
      then m in times && |times[m]| == Autos(ws, m) && T.Last(clocks', m) == times[m][Autos(ws, m) - 1]
      else T.Last(clocks', m) == T.Last(clocks, m)
  }

  /** The requests ask for what the writes need. */
  ghost predicate Asks(ws: seq<Write>, reading: Bytes -> int, requests: seq<T.Request>, readings: seq<int>) {
    && T.Requested(requests, readings)
    && (forall i :: 0 <= i < |requests| ==>
          var m := requests[i].metric;
          requests[i] == T.Request(m, Autos(ws, m), Explicit(ws, m)) && readings[i] == reading(m))
    && (forall m :: Autos(ws, m) > 0 ==> exists i :: 0 <= i < |requests| && requests[i].metric == m)
  }

  lemma FailsExactly(ws: seq<Write>, events: Events, clocks: Clocks, reading: Bytes -> int,
                     requests: seq<T.Request>, readings: seq<int>)
    requires Asks(ws, reading, requests, readings)
    ensures (exists i :: 0 <= i < |requests| && T.CannotAllocate(requests[i], readings[i], AllTimes(events), clocks))
            <==> exists m :: Fails(ws, events, clocks, reading, m)
  {
    hide Autos, Explicit, AllTimes, T.CannotAllocate;
    if i :| 0 <= i < |requests| && T.CannotAllocate(requests[i], readings[i], AllTimes(events), clocks) {
      assert Fails(ws, events, clocks, reading, requests[i].metric);
    }
    if m :| Fails(ws, events, clocks, reading, m) {
      var i :| 0 <= i < |requests| && requests[i].metric == m;
      assert T.CannotAllocate(requests[i], readings[i], AllTimes(events), clocks);
    }
  }

  lemma AllAnswered(ws: seq<Write>, events: Events, clocks: Clocks, reading: Bytes -> int,
                    requests: seq<T.Request>, readings: seq<int>, times: map<Bytes, seq<int>>, clocks': Clocks)
    requires Asks(ws, reading, requests, readings)
    requires forall i :: 0 <= i < |requests| ==>
               var q := requests[i];
               && q.metric in times && q.metric in clocks'
               && T.Earliest(times[q.metric], q.count, T.Last(clocks, q.metric), readings[i],
                             T.Occupied(AllTimes(events), q.metric) + q.reserved)
               && clocks'[q.metric] == times[q.metric][q.count - 1]
    requires forall m :: (forall i :: 0 <= i < |requests| ==> requests[i].metric != m) ==>
             T.Last(clocks', m) == T.Last(clocks, m)
    ensures Allocated(ws, events, clocks, reading, times) && Enough(ws, times)
            && ClocksFollow(ws, clocks, times, clocks')
  {
    hide Autos, Explicit, AllTimes, Times, T.FreeList;
    forall m
      ensures Autos(ws, m) > 0 ==>
                && m in times && |times[m]| == Autos(ws, m) && T.Last(clocks', m) == times[m][Autos(ws, m) - 1]
                && T.Earliest(times[m], Autos(ws, m), T.Last(clocks, m), reading(m), Times(events, m) + Explicit(ws, m))
      ensures Autos(ws, m) == 0 ==> T.Last(clocks', m) == T.Last(clocks, m)
    {
      OccupiedTimes(events, m);
      if Autos(ws, m) > 0 {
        var i :| 0 <= i < |requests| && requests[i].metric == m;
      }
    }
  }

  lemma NothingStored(events: Events, clocks: Clocks, reading: Bytes -> int)
    ensures forall m :: !Fails([], events, clocks, reading, m)
    ensures Allocated([], events, clocks, reading, map[]) && ClocksFollow([], clocks, map[], clocks)
    ensures WriteAll(events, Stamped([], map[])) == events
  {}

  /** Timestamps for the accepted writes and the event rows they leave; a failed allocation changes nothing. */
  method StoreEvents(ws: seq<Write>, events: Events, clocks: Clocks, reading: Bytes -> int)
    returns (ok: bool, events': Events, clocks': Clocks, times: map<Bytes, seq<int>>)
    requires forall m :: reading(m) <= T.MAX_INT64
    ensures ok <==> forall m :: !Fails(ws, events, clocks, reading, m)
    ensures !ok ==> events' == events && clocks' == clocks
    ensures ok ==> Allocated(ws, events, clocks, reading, times) && events' == WriteAll(events, Stamped(ws, times))
    ensures ok ==> ClocksFollow(ws, clocks, times, clocks')
  {
    hide Autos, Explicit, Times, AllTimes, WriteAll, Upsert, T.FreeList, Allocated, Enough, ClocksFollow, Fails;
    var counts, explicit := Count(ws);
    var requests, readings := Requests(counts, explicit, reading);
    assert Asks(ws, reading, requests, readings);
    hide Asks;
    var r;
    r, clocks' := T.AllocateBatch(requests, readings, AllTimes(events), clocks);
    FailsExactly(ws, events, clocks, reading, requests, readings);
    if r.Failure? {
      return false, events, clocks', map[];
    }
    times := r.value;
    AllAnswered(ws, events, clocks, reading, requests, readings, times, clocks');
    var stamped := Assign(ws, times);
    UpsertIsSequential(events, stamped);
    ok, events' := true, Upsert(events, stamped);
  }
}
