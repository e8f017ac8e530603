/** Automatic timestamps of internal/analytics/timestamp_batch.go: the paged search for free positions
    and what it guarantees across transactions. */
module Timestamps {
  import opened ByteStrings

  const MAX_INT64: int := 0x7FFF_FFFF_FFFF_FFFF

  /** The positions in [start, end) that are not taken, ascending. */
  function FreeList(start: int, end: int, taken: set<int>): (free: seq<int>)
    decreases end - start
  {
    if end <= start then []
    else FreeList(start, end - 1, taken) + (if end - 1 in taken then [] else [end - 1])
  }

  /** `SELECT ts ... WHERE ts >= lo AND ts < hi ORDER BY ts LIMIT limit`. */
  function Page(occupied: set<int>, lo: int, hi: int, limit: nat): (rows: seq<int>)
    decreases hi - lo
  {
    if limit == 0 || lo >= hi then []
    else if lo in occupied then [lo] + Page(occupied, lo + 1, hi, limit - 1)
    else Page(occupied, lo + 1, hi, limit)
  }

  /** The page holds occupied positions in order, and all of them unless it is full. */
  ghost predicate IsPage(rows: seq<int>, occupied: set<int>, lo: int, hi: int, limit: nat) {
    && |rows| <= limit
    && (forall i :: 0 <= i < |rows| ==> lo <= rows[i] < hi && rows[i] in occupied)
    && (forall i, j :: 0 <= i < j < |rows| ==> rows[i] < rows[j])
    && (forall x :: x in occupied && lo <= x < hi ==>
       x in rows || (|rows| == limit && (limit > 0 ==> rows[limit - 1] < x)))
  }

  lemma {:induction false} PageIsPage(occupied: set<int>, lo: int, hi: int, limit: nat)
    ensures IsPage(Page(occupied, lo, hi, limit), occupied, lo, hi, limit)
    decreases hi - lo
  {
    if limit > 0 && lo < hi {
      if lo in occupied {
        PageIsPage(occupied, lo + 1, hi, limit - 1);
        PageCons(Page(occupied, lo + 1, hi, limit - 1), occupied, lo, hi, limit);
      } else {
        PageIsPage(occupied, lo + 1, hi, limit);
      }
    }
  }

  lemma PageCons(rest: seq<int>, occupied: set<int>, lo: int, hi: int, limit: nat)
    requires limit > 0 && lo in occupied && lo < hi && IsPage(rest, occupied, lo + 1, hi, limit - 1)
    ensures IsPage([lo] + rest, occupied, lo, hi, limit)
  {
    var rows := [lo] + rest;
    forall x | x in occupied && lo <= x < hi ensures x in rows || (|rows| == limit && rows[limit - 1] < x) {
      if x == lo { assert rows[0] == x; }
      if x in rest { assert x in rows; }
    }
    forall i | 0 <= i < |rows| ensures lo <= rows[i] < hi && rows[i] in occupied {}
    forall i, j | 0 <= i < j < |rows| ensures rows[i] < rows[j] {}
  }

  /** The comparison with the next page row decides whether a position is occupied. */
  lemma PageDecides(rows: seq<int>, occupied: set<int>, lo: int, hi: int, limit: nat, position: nat, x: int)
    requires IsPage(rows, occupied, lo, hi, limit) && lo <= x < hi && position <= |rows|
    requires forall j :: 0 <= j < position ==> rows[j] < x
    requires position < |rows| ==> x <= rows[position]
    requires position == |rows| ==> |rows| != limit
    ensures x in occupied <==> position < |rows| && rows[position] == x
  {
    if x in occupied {
      assert x in rows;
      var i :| 0 <= i < |rows| && rows[i] == x;
    }
  }

  lemma PageStarts(rows: seq<int>, occupied: set<int>, lo: int, hi: int, limit: nat)
    requires IsPage(rows, occupied, lo, hi, limit) && |rows| > 0
    ensures lo <= rows[0]
  {}

  lemma {:induction false} FreeListExact(start: int, end: int, taken: set<int>)
    ensures var free := FreeList(start, end, taken);
            && (forall x :: x in free <==> start <= x < end && x !in taken)
            && (forall i, j :: 0 <= i < j < |free| ==> free[i] < free[j])
    decreases end - start
  {
    if start < end {
      FreeListExact(start, end - 1, taken);
      var prior, free := FreeList(start, end - 1, taken), FreeList(start, end, taken);
      forall i, j | 0 <= i < j < |free| ensures free[i] < free[j] {
        assert prior[i] in prior;
      }
    }
  }

  lemma {:induction false} FreeListGrows(start: int, mid: int, end: int, taken: set<int>)
    requires mid <= end
    ensures FreeList(start, mid, taken) <= FreeList(start, end, taken)
    decreases end - mid
  {
    if mid < end { FreeListGrows(start, mid, end - 1, taken); }
  }

  /** timestampAllocation: one metric's search. */
  class Allocation {
    const start: int
    const count: nat
    const occupied: set<int>
    const reserved: set<int>
    var candidate: int
    var chosen: seq<int>

    ghost function Taken(): set<int> { occupied + reserved }

    ghost predicate Valid()
      reads this
    {
      && 0 < start <= candidate <= MAX_INT64
      && chosen == FreeList(start, candidate, Taken()) && |chosen| <= count
    }

    constructor (start: int, count: nat, occupied: set<int>, reserved: set<int>)
      requires 0 < start <= MAX_INT64
      ensures Valid() && candidate == start && chosen == []
      ensures this.start == start && this.count == count && this.occupied == occupied && this.reserved == reserved
    {
      this.start, this.count, this.occupied, this.reserved := start, count, occupied, reserved;
      candidate, chosen := start, [];
    }

    /** The end of the next page; the sum is formed only when it cannot overflow. */
    function Bound(): (bound: int)
      reads this
      requires candidate <= MAX_INT64
      ensures candidate <= bound <= MAX_INT64
      ensures candidate < MAX_INT64 ==> candidate < bound
    {
      var wanted := count - |chosen| + |reserved|;
      var span := if wanted > 1000 then wanted else 1000;
      if span < MAX_INT64 - candidate then candidate + span else MAX_INT64
    }

    /** Walk one page of occupied positions. */
    method Walk(positions: seq<int>, limit: nat, end: int)
      requires Valid() && limit > 0 && candidate <= end <= MAX_INT64 && |chosen| < count
      requires IsPage(positions, occupied, candidate, end, limit)
      modifies this
      ensures Valid() && old(candidate) <= candidate
      ensures old(candidate) < end ==> old(candidate) < candidate
      ensures |chosen| < count ==> candidate == end || |positions| == limit
    {
      hide IsPage;
      var position := 0;
      while |chosen| < count && candidate < end
        invariant Valid() && old(candidate) <= candidate <= end
        invariant 0 <= position <= |positions|
        invariant forall j :: 0 <= j < position ==> positions[j] < candidate
        invariant |chosen| == count ==> old(candidate) < candidate
        decreases end - candidate
      {
        while position < |positions| && positions[position] < candidate
          invariant 0 <= position <= |positions|
          invariant forall j :: 0 <= j < position ==> positions[j] < candidate
        {
          position := position + 1;
        }
        // A full page may have adjacent occupied positions beyond its end.
        if position == |positions| && |positions| == limit {
          assert positions[0] >= old(candidate) by { PageStarts(positions, occupied, old(candidate), end, limit); }
          break;
        }
        PageDecides(positions, occupied, old(candidate), end, limit, position, candidate);
        var free := candidate !in reserved && (position == |positions| || positions[position] != candidate);
        assert free <==> candidate !in Taken();
        if free { chosen := chosen + [candidate]; }
        candidate := candidate + 1;
      }
    }
  }

  ghost predicate Unfinished(s: Allocation, rounds: nat)
    reads s
  {
    s.Valid() && |s.chosen| < s.count && s.start + rounds <= s.candidate
  }

  ghost predicate Exhausted(s: Allocation) {
    |FreeList(s.start, MAX_INT64, s.Taken())| < s.count
  }

  ghost predicate Distinct(states: seq<Allocation>) {
    forall i, j :: 0 <= i < j < |states| ==> states[i] != states[j]
  }

  /** One round: a page for every unfinished metric. Every metric still pending has advanced. */
  method Round(remaining: seq<Allocation>, limit: nat, ghost rounds: nat) returns (ok: bool, pending: seq<Allocation>)
    requires Distinct(remaining) && limit > 0
    requires forall s :: s in remaining ==> Unfinished(s, rounds)
    modifies set s | s in remaining
    ensures forall s :: s in remaining ==> s.Valid()
    ensures ok ==> Distinct(pending) && forall s :: s in pending ==> s in remaining && Unfinished(s, rounds + 1)
    ensures ok ==> forall s :: s in remaining ==> s in pending || |s.chosen| == s.count
    ensures !ok ==> exists s :: s in remaining && Exhausted(s)
  {
    hide FreeList, Page, IsPage;
    pending := [];
    var i := 0;
    while i < |remaining|
      invariant 0 <= i <= |remaining|
      invariant forall j :: i <= j < |remaining| ==> Unfinished(remaining[j], rounds)
      invariant forall j :: 0 <= j < i ==>
                remaining[j].Valid() && (remaining[j] in pending || |remaining[j].chosen| == remaining[j].count)
      invariant forall s :: s in pending ==> Unfinished(s, rounds + 1) && exists j :: 0 <= j < i && remaining[j] == s
      invariant Distinct(pending)
    {
      var s := remaining[i];
      assert s in remaining && s !in pending;
      var end := s.Bound();
      var positions := Page(s.occupied, s.candidate, end, limit);
      PageIsPage(s.occupied, s.candidate, end, limit);
      s.Walk(positions, limit, end);
      if |s.chosen| < s.count {
        if s.candidate >= MAX_INT64 {
          assert Exhausted(s);
          return false, pending;
        }
        pending := pending + [s];
      }
      i := i + 1;
    }
    ok := true;
  }

  /** The rounds of allocateBatchTimestampsWithClocks. */
  method SearchAll(states: seq<Allocation>) returns (ok: bool)
    requires Distinct(states)
    requires forall s :: s in states ==> s.Valid() && s.candidate == s.start && s.chosen == [] && s.count > 0
    modifies set s | s in states
    ensures forall s :: s in states ==> s.Valid()
    ensures ok ==> forall s :: s in states ==> |s.chosen| == s.count
    ensures !ok ==> exists s :: s in states && Exhausted(s)
  {
    hide FreeList;
    var remaining := states;
    ghost var rounds := 0;
    while |remaining| > 0
      invariant Distinct(remaining)
      invariant forall s :: s in states ==> s.Valid() && (s in remaining || |s.chosen| == s.count)
      invariant forall s :: s in remaining ==> s in states && Unfinished(s, rounds)
      decreases MAX_INT64 - rounds
    {
      assert remaining[0] in remaining;
      var share := 1024 / |remaining|;
      var limit := if share < 32 then 32 else if share > 1000 then 1000 else share;
      var more, pending := Round(remaining, limit, rounds);
      if !more { return false; }
      remaining, rounds := pending, rounds + 1;
    }
    ok := true;
  }

  // ---- One transaction ----

  datatype Result<+T> = Success(value: T) | Failure(error: string)

  datatype Request = Request(metric: Bytes, count: nat, reserved: set<int>)

  /** Where the search starts: the clock reading, or right after the last persisted timestamp. */
  function StartAfter(last: int, reading: int): int { if reading <= last then last + 1 else reading }

  function Last(clocks: map<Bytes, int>, metric: Bytes): int { if metric in clocks then clocks[metric] else 0 }

  function Occupied(events: map<Bytes, set<int>>, metric: Bytes): set<int> {
    if metric in events then events[metric] else {}
  }

  /** One metric of a request fails exactly when its clock is unusable or too few positions are free. */
  ghost predicate CannotAllocate(r: Request, reading: int, events: map<Bytes, set<int>>, clocks: map<Bytes, int>) {
    var start := StartAfter(Last(clocks, r.metric), reading);
    || Last(clocks, r.metric) >= MAX_INT64 - 1
    || start <= 0
    || |FreeList(start, MAX_INT64, Occupied(events, r.metric) + r.reserved)| < r.count
  }

  /** The metric's timestamps are the first free positions at or after its start. */
  ghost predicate FirstFree(ts: seq<int>, count: nat, start: int, taken: set<int>) {
    |ts| == count && ts <= FreeList(start, MAX_INT64, taken)
  }

  /**
    `ts` are the earliest `count` free positions after the last timestamp and not before the clock reading:
    ascending, free, and no other free position comes before any of them.
    */
  ghost predicate Earliest(ts: seq<int>, count: nat, last: int, reading: int, taken: set<int>) {
    && |ts| == count && (forall i, j :: 0 <= i < j < |ts| ==> ts[i] < ts[j])
    && (forall t :: t in ts ==> reading <= t && last < t < MAX_INT64 && t !in taken)
    && (forall x, t :: reading <= x && last < x < MAX_INT64 && x !in taken && x !in ts && t in ts ==> t < x)
  }

  lemma FreeAt(start: int, end: int, taken: set<int>, i: nat)
    requires i < |FreeList(start, end, taken)|
    ensures var x := FreeList(start, end, taken)[i]; start <= x < end && x !in taken
  {
    FreeListExact(start, end, taken);
    assert FreeList(start, end, taken)[i] in FreeList(start, end, taken);
  }

  /** The front of the free list from the start is earliest. */
  lemma FirstFreeIsEarliest(ts: seq<int>, count: nat, last: int, reading: int, taken: set<int>)
    requires FirstFree(ts, count, StartAfter(last, reading), taken)
    ensures Earliest(ts, count, last, reading, taken)
  {
    var start := StartAfter(last, reading);
    var free := FreeList(start, MAX_INT64, taken);
    FreeListExact(start, MAX_INT64, taken);
    assert forall i :: 0 <= i < |ts| ==> ts[i] == free[i];
    forall i, j | 0 <= i < j < |ts| ensures ts[i] < ts[j] { assert free[i] < free[j]; }
    forall t | t in ts ensures t in free && reading <= t && last < t < MAX_INT64 && t !in taken {
      var i :| 0 <= i < |ts| && ts[i] == t;
      FreeAt(start, MAX_INT64, taken, i);
    }
    forall x, t | reading <= x && last < x < MAX_INT64 && x !in taken && x !in ts && t in ts ensures t < x {
      assert x in free;
      var i :| 0 <= i < |free| && free[i] == x;
      var j :| 0 <= j < |ts| && ts[j] == t;
      assert i >= |ts|;
    }
  }

  /** A metric fails exactly when its clock or its reading is unusable, or there are no such positions. */
  lemma CannotAllocateExactly(r: Request, reading: int, events: map<Bytes, set<int>>, clocks: map<Bytes, int>)
    ensures var last := if r.metric in clocks then clocks[r.metric] else 0;
            var taken := (if r.metric in events then events[r.metric] else {}) + r.reserved;
            CannotAllocate(r, reading, events, clocks)
            <==> last >= MAX_INT64 - 1 || (last < 0 && reading <= 0)
                 || forall ts :: !Earliest(ts, r.count, last, reading, taken)
  {
    var last := Last(clocks, r.metric);
    var taken := Occupied(events, r.metric) + r.reserved;
    var start := StartAfter(last, reading);
    var free := FreeList(start, MAX_INT64, taken);
    FreeListExact(start, MAX_INT64, taken);
    if |free| >= r.count {
      FirstFreeIsEarliest(free[..r.count], r.count, last, reading, taken);
    }
    if ts :| Earliest(ts, r.count, last, reading, taken) {
      forall i | 0 <= i < |ts| ensures ts[i] in free { assert ts[i] in ts; }
      FitsIn(ts, free);
    }
  }

  /** Ascending positions that are all in another list are not more than it has. */
  lemma {:induction false} FitsIn(ts: seq<int>, free: seq<int>)
    requires (forall i, j :: 0 <= i < j < |ts| ==> ts[i] < ts[j]) && forall i :: 0 <= i < |ts| ==> ts[i] in free
    requires forall i, j :: 0 <= i < j < |free| ==> free[i] < free[j]
    ensures |ts| <= |free|
  {
    if ts != [] {
      var k :| 0 <= k < |free| && free[k] == ts[|ts| - 1];
      var init := ts[..|ts| - 1];
      forall i | 0 <= i < |init| ensures init[i] in free[..k] {
        assert init[i] == ts[i] && ts[i] in free;
        var j :| 0 <= j < |free| && free[j] == ts[i];
        assert j < k;
        assert free[..k][j] == init[i];
      }
      FitsIn(init, free[..k]);
    }
  }

  /** The search set up for a request. */
  ghost predicate SearchFor(s: Allocation, q: Request, reading: int, events: map<Bytes, set<int>>, clocks: map<Bytes,
                            int>) {
    && Last(clocks, q.metric) < MAX_INT64 - 1
    && s.count == q.count && s.start == StartAfter(Last(clocks, q.metric), reading) && s.start > 0
    && s.Taken() == Occupied(events, q.metric) + q.reserved
  }

  predicate Requested(requests: seq<Request>, readings: seq<int>) {
    && |readings| == |requests|
    && (forall i :: 0 <= i < |requests| ==> requests[i].count > 0 && readings[i] <= MAX_INT64)
    && (forall i, j :: 0 <= i < j < |requests| ==> requests[i].metric != requests[j].metric)
  }

  method Prepare(requests: seq<Request>, readings: seq<int>, events: map<Bytes, set<int>>, clocks: map<Bytes, int>)
    returns (r: Result<seq<Allocation>>)
    requires Requested(requests, readings)
    ensures r.Failure? ==> exists i :: 0 <= i < |requests| && CannotAllocate(requests[i], readings[i], events, clocks)
    ensures r.Success? ==> |r.value| == |requests| && Distinct(r.value) && forall s :: s in r.value ==> fresh(s)
    ensures r.Success? ==> forall i :: 0 <= i < |requests| ==>
              && SearchFor(r.value[i], requests[i], readings[i], events, clocks)
              && r.value[i].Valid() && r.value[i].candidate == r.value[i].start && r.value[i].chosen == []
  {
    hide FreeList;
    var states: seq<Allocation> := [];
    for i := 0 to |requests|
      invariant |states| == i && Distinct(states)
      invariant forall s :: s in states ==> fresh(s)
      invariant forall j :: 0 <= j < i ==>
        && SearchFor(states[j], requests[j], readings[j], events, clocks)
        && states[j].Valid() && states[j].candidate == states[j].start && states[j].chosen == []
    {
      var q := requests[i];
      var last := Last(clocks, q.metric);
      if last >= MAX_INT64 - 1 {
        assert CannotAllocate(q, readings[i], events, clocks);
        return Failure("automatic timestamp space exhausted");
      }
      var start := StartAfter(last, readings[i]);
      if start <= 0 {
        assert CannotAllocate(q, readings[i], events, clocks);
        return Failure("invalid automatic timestamp clock");
      }
      var s := new Allocation(start, q.count, Occupied(events, q.metric), q.reserved);
      states := states + [s];
    }
    r := Success(states);
  }

  /** Results and new clocks by metric, once every metric is complete. */
  method Collect(requests: seq<Request>, chosen: seq<seq<int>>, clocks: map<Bytes, int>)
    returns (result: map<Bytes, seq<int>>, persisted: map<Bytes, int>)
    requires |chosen| == |requests| && forall i :: 0 <= i < |requests| ==> |chosen[i]| == requests[i].count > 0
    requires forall i, j :: 0 <= i < j < |requests| ==> requests[i].metric != requests[j].metric
    ensures forall i :: 0 <= i < |requests| ==>
              var m := requests[i].metric;
              m in result && result[m] == chosen[i] && m in persisted
                && persisted[m] == chosen[i][requests[i].count - 1]
    ensures forall m :: (forall i :: 0 <= i < |requests| ==> requests[i].metric != m) ==>
            Last(persisted, m) == Last(clocks, m)
  {
    result, persisted := map[], clocks;
    for i := 0 to |requests|
      invariant forall j :: 0 <= j < i ==>
        var m := requests[j].metric;
        m in result && result[m] == chosen[j] && m in persisted && persisted[m] == chosen[j][requests[j].count - 1]
      invariant forall m :: (forall j :: 0 <= j < |requests| ==> requests[j].metric != m) ==>
                Last(persisted, m) == Last(clocks, m)
    {
      var m := requests[i].metric;
      result, persisted := result[m := chosen[i]], persisted[m := chosen[i][|chosen[i]| - 1]];
    }
  }

  /** allocateBatchTimestampsWithClocks: `readings[i]` is nextTimestamp's answer for the i-th metric. */
  method AllocateBatch(requests: seq<Request>, readings: seq<int>, events: map<Bytes, set<int>>, clocks: map<Bytes,
                       int>)
    returns (r: Result<map<Bytes, seq<int>>>, persisted: map<Bytes, int>)
    requires Requested(requests, readings)
    ensures r.Failure? <==> exists i :: 0 <= i < |requests| && CannotAllocate(requests[i], readings[i], events, clocks)
    ensures r.Failure? ==> persisted == clocks
    ensures r.Success? ==> forall i :: 0 <= i < |requests| ==>
              var q := requests[i];
              && q.metric in r.value && q.metric in persisted
              && FirstFree(r.value[q.metric], q.count, StartAfter(Last(clocks, q.metric), readings[i]),
                           Occupied(events, q.metric) + q.reserved)
              && persisted[q.metric] == r.value[q.metric][q.count - 1]
              && Earliest(r.value[q.metric], q.count, if q.metric in clocks then clocks[q.metric] else 0, readings[i],
                          (if q.metric in events then events[q.metric] else {}) + q.reserved)
    ensures r.Success? ==> forall m :: (forall i :: 0 <= i < |requests| ==> requests[i].metric != m) ==>
              Last(persisted, m) == Last(clocks, m)
  {
    hide FreeList;
    var prepared := Prepare(requests, readings, events, clocks);
    if prepared.Failure? { return Failure(prepared.error), clocks; }
    var states := prepared.value;
    var ok := SearchAll(states);
    if !ok {
      ghost var s :| s in states && Exhausted(s);
      ghost var i :| 0 <= i < |states| && states[i] == s;
      assert SearchFor(states[i], requests[i], readings[i], events, clocks);
      assert CannotAllocate(requests[i], readings[i], events, clocks);
      return Failure("automatic timestamp space exhausted"), clocks;
    }
    var chosen := seq(|states|, i requires 0 <= i < |states| reads states => states[i].chosen);
    forall i | 0 <= i < |requests|
      ensures !CannotAllocate(requests[i], readings[i], events, clocks)
      ensures |chosen[i]| == requests[i].count
      ensures FirstFree(chosen[i], requests[i].count, StartAfter(Last(clocks, requests[i].metric), readings[i]),
                        Occupied(events, requests[i].metric) + requests[i].reserved)
    {
      var s := states[i];
      assert s in states && SearchFor(s, requests[i], readings[i], events, clocks);
      FreeListGrows(s.start, s.candidate, MAX_INT64, s.Taken());
    }
    forall i | 0 <= i < |requests|
      ensures Earliest(chosen[i], requests[i].count, Last(clocks, requests[i].metric), readings[i],
                       Occupied(events, requests[i].metric) + requests[i].reserved)
    {
      FirstFreeIsEarliest(chosen[i], requests[i].count, Last(clocks, requests[i].metric), readings[i],
                          Occupied(events, requests[i].metric) + requests[i].reserved);
    }
    hide FirstFree, SearchFor, Earliest;
    var result, clocks' := Collect(requests, chosen, clocks);
    r, persisted := Success(result), clocks';
  }

  // ---- All transactions of one metric ----

  /** The metric's events, its persisted clock and every automatic timestamp ever committed. */
  datatype Metric = Metric(events: set<int>, last: int, automatic: seq<int>)

  datatype Transaction =
    | Batch(explicit: set<int>, timestamps: seq<int>, reading: int)   // automatic timestamps or none
    | Erase(erased: set<int>)

  /** Transactions hold the metric's lock; a failed allocation changes nothing and is no step. */
  ghost predicate Commits(m: Metric, t: Transaction, m': Metric) {
    match t
    case Batch(explicit, ts, reading) =>
      && reading <= MAX_INT64
      && (ts != [] ==> m.last < MAX_INT64 - 1 && StartAfter(m.last, reading) > 0
                       && FirstFree(ts, |ts|, StartAfter(m.last, reading), m.events + explicit))
      && m' == Metric(m.events + explicit + (set x | x in ts), if ts == [] then m.last
         else ts[|ts| - 1], m.automatic + ts)
    case Erase(erased) => m' == m.(events := m.events - erased)
  }

  ghost predicate Ordered(m: Metric) {
    && (forall i, j :: 0 <= i < j < |m.automatic| ==> m.automatic[i] < m.automatic[j])
    && (forall i :: 0 <= i < |m.automatic| ==> m.automatic[i] <= m.last)
  }

  /** Timestamps of one transaction are new, collision-free and after every earlier automatic one. */
  lemma CommitKeepsOrder(m: Metric, t: Transaction, m': Metric)
    requires Ordered(m) && Commits(m, t, m')
    ensures Ordered(m')
    ensures t.Batch? ==> forall i :: 0 <= i < |t.timestamps| ==>
              t.timestamps[i] !in m.events && t.timestamps[i] !in t.explicit && m.last < t.timestamps[i] < MAX_INT64
    ensures t.Batch? ==> forall i, j :: 0 <= i < j < |t.timestamps| ==> t.timestamps[i] < t.timestamps[j]
  {
    if t.Batch? && t.timestamps != [] {
      var start := StartAfter(m.last, t.reading);
      var free := FreeList(start, MAX_INT64, m.events + t.explicit);
      FreeListExact(start, MAX_INT64, m.events + t.explicit);
      hide FreeList;
      forall i | 0 <= i < |t.timestamps|
        ensures start <= t.timestamps[i] < MAX_INT64 && t.timestamps[i] !in m.events + t.explicit
      {
        assert t.timestamps[i] == free[i] && free[i] in free;
      }
    }
  }

  ghost predicate History(metrics: seq<Metric>, transactions: seq<Transaction>) {
    && |metrics| == |transactions| + 1
    && metrics[0] == Metric({}, 0, [])
    && forall i :: 0 <= i < |transactions| ==> Commits(metrics[i], transactions[i], metrics[i + 1])
  }

  /** Over every history, whatever the nodes' clocks read: the metric's automatic timestamps strictly
      increase, and no automatic insert meets an existing or same-batch event. */
  lemma {:induction false} HistoryIsOrdered(metrics: seq<Metric>, transactions: seq<Transaction>, n: nat)
    requires History(metrics, transactions) && n < |metrics|
    ensures Ordered(metrics[n])
    ensures n < |transactions| && transactions[n].Batch? ==>
              forall i :: 0 <= i < |transactions[n].timestamps| ==>
                transactions[n].timestamps[i] !in metrics[n].events + transactions[n].explicit
  {
    hide Commits;
    if n > 0 {
      HistoryIsOrdered(metrics, transactions, n - 1);
      CommitKeepsOrder(metrics[n - 1], transactions[n - 1], metrics[n]);
    }
    if n < |transactions| { CommitKeepsOrder(metrics[n], transactions[n], metrics[n + 1]); }
  }
}
