/** Bucketed series: one pass over a whole history, and the same history in chunks of 512 events. */
module Series {
  import opened MemberCodec

  datatype Event = Event(ts: nat, value: Float)

  /** A fixed width, or a calendar step from one bucket start to the next. */
  datatype Spec = Fixed(width: nat) | Calendar(step: nat -> nat)

  datatype Point = Point(start: nat, sum: Float, count: nat)

  const CHUNK: nat := 512

  /** Parsed durations are positive, and adding one moves a date forward. */
  ghost predicate Advances(spec: Spec) {
    match spec
    case Fixed(width) => width > 0
    case Calendar(step) => forall t :: step(t) > t
  }

  // ---- Buckets ----

  ghost function StartFrom(step: nat -> nat, start: nat, ts: nat): (r: nat)
    requires start <= ts && forall t :: step(t) > t
    ensures start <= r <= ts < step(r)
    decreases ts - start
  {
    if step(start) > ts then start else StartFrom(step, step(start), ts)
  }

  /** The start of the bucket an instant falls into: buckets follow each other from the epoch. */
  ghost function StartOf(spec: Spec, ts: nat): nat
    requires Advances(spec)
  {
    match spec
    case Fixed(width) => ts - ts % width
    case Calendar(step) => StartFrom(step, 0, ts)
  }

  function EndOf(spec: Spec, start: nat): nat {
    match spec
    case Fixed(width) => start + width
    case Calendar(step) => step(start)
  }

  lemma {:induction false} SameStart(step: nat -> nat, start: nat, a: nat, b: nat)
    requires start <= a <= b && forall t :: step(t) > t
    ensures StartFrom(step, start, a) == StartFrom(step, start, b) <==> b < step(StartFrom(step, start, a))
    ensures StartFrom(step, start, a) <= StartFrom(step, start, b)
    decreases a - start
  {
    if step(start) <= a { SameStart(step, step(start), a, b); }
  }

  lemma FixedStart(width: nat, a: nat, b: nat)
    requires width > 0 && a <= b
    ensures a - a % width <= a < a - a % width + width
    ensures b - b % width == a - a % width <==> b < a - a % width + width
    ensures a - a % width <= b - b % width
  {
    DivMod(a, width);
    DivMod(b, width);
    var q, p := a / width, b / width;
    if q < p { MulGrows(q, p, width); }
    if p < q { MulGrows(p, q, width); }
  }

  lemma DivMod(n: nat, width: nat)
    requires width > 0
    ensures n == n / width * width + n % width && 0 <= n % width < width
  {}

  lemma {:induction false} MulGrows(a: nat, b: nat, w: nat)
    requires a < b
    ensures a * w + w <= b * w
    decreases b
  {
    assert (b - 1 + 1) * w == (b - 1) * w + w;
    if a < b - 1 { MulGrows(a, b - 1, w); }
  }

  /** An instant lies in its bucket, and a later one lies in the same bucket exactly if it is before the end. */
  lemma BucketOf(spec: Spec, a: nat, b: nat)
    requires Advances(spec) && a <= b
    ensures StartOf(spec, a) <= a < EndOf(spec, StartOf(spec, a))
    ensures StartOf(spec, b) == StartOf(spec, a) <==> b < EndOf(spec, StartOf(spec, a))
    ensures StartOf(spec, a) <= StartOf(spec, b)
  {
    match spec
    case Fixed(width) => FixedStart(width, a, b);
    case Calendar(step) => SameStart(step, 0, a, b);
  }

  // ---- The specification: events one after the other ----

  ghost predicate Ordered(events: seq<Event>) { forall i, j :: 0 <= i < j < |events| ==> events[i].ts <= events[j].ts }

  /** One event joins the last point if that is its bucket, and opens a new point otherwise. */
  function Add(points: seq<Point>, start: nat, value: Float, plus: (Float, Float) -> Float): seq<Point> {
    if points != [] && points[|points| - 1].start == start then
      var last := points[|points| - 1];
      points[..|points| - 1] + [Point(start, plus(last.sum, value), last.count + 1)]
    else points + [Point(start, plus(ZERO, value), 1)]
  }

  /** Sums from left to right, in the original order of the events. */
  ghost function Fold(points: seq<Point>, events: seq<Event>, spec: Spec, plus: (Float, Float) -> Float): seq<Point>
    requires Advances(spec)
    decreases |events|
  {
    if events == [] then points
    else
      var n := |events| - 1;
      Add(Fold(points, events[..n], spec, plus), StartOf(spec, events[n].ts), events[n].value, plus)
  }

  lemma {:induction false} FoldAppend(points: seq<Point>, a: seq<Event>, b: seq<Event>, spec: Spec,
                                      plus: (Float, Float) -> Float)
    requires Advances(spec)
    ensures Fold(points, a + b, spec, plus) == Fold(Fold(points, a, spec, plus), b, spec, plus)
    decreases |b|
  {
    hide StartOf, Add, Fold;
    if b == [] {
      assert a + b == a;
      NoEvents(Fold(points, a, spec, plus), spec, plus);
    } else {
      var n := |b| - 1;
      assert a + b == a + b[..n] + [b[n]] && b == b[..n] + [b[n]];
      FoldAppend(points, a, b[..n], spec, plus);
      FoldLast(points, a + b[..n], b[n], spec, plus);
      FoldLast(Fold(points, a, spec, plus), b[..n], b[n], spec, plus);
    }
  }

  lemma NoEvents(points: seq<Point>, spec: Spec, plus: (Float, Float) -> Float)
    requires Advances(spec)
    ensures Fold(points, [], spec, plus) == points
  {}

  lemma FoldLast(points: seq<Point>, events: seq<Event>, e: Event, spec: Spec, plus: (Float, Float) -> Float)
    requires Advances(spec)
    ensures Fold(points, events + [e], spec, plus)
            == Add(Fold(points, events, spec, plus), StartOf(spec, e.ts), e.value, plus)
  {
    hide StartOf, Add;
    assert (events + [e])[..|events|] == events;
  }

  lemma FoldOne(points: seq<Point>, e: Event, spec: Spec, plus: (Float, Float) -> Float)
    requires Advances(spec)
    ensures Fold(points, [e], spec, plus) == Add(points, StartOf(spec, e.ts), e.value, plus)
  {
    hide StartOf, Add, Fold;
    NoEvents(points, spec, plus);
    FoldLast(points, [], e, spec, plus);
    assert [] + [e] == [e];
  }

  /** Of an ordered history every bucket is listed once, in increasing order. */
  lemma {:induction false} BucketsIncrease(events: seq<Event>, spec: Spec, plus: (Float, Float) -> Float)
    requires Advances(spec) && Ordered(events)
    ensures var points := Fold([], events, spec, plus);
            && (forall i, j :: 0 <= i < j < |points| ==> points[i].start < points[j].start)
            && (events != [] ==> points != [] && points[|points| - 1].start == StartOf(spec, events[|events| - 1].ts))
    decreases |events|
  {
    hide StartOf, Add, Fold;
    NoEvents([], spec, plus);
    if events != [] {
      var n := |events| - 1;
      BucketsIncrease(events[..n], spec, plus);
      if n > 0 { BucketOf(spec, events[n - 1].ts, events[n].ts); }
      assert events == events[..n] + [events[n]];
      FoldLast([], events[..n], events[n], spec, plus);
      AddIncreases(Fold([], events[..n], spec, plus), StartOf(spec, events[n].ts), events[n].value, plus);
    }
  }

  lemma AddIncreases(points: seq<Point>, start: nat, value: Float, plus: (Float, Float) -> Float)
    requires forall i, j :: 0 <= i < j < |points| ==> points[i].start < points[j].start
    requires points != [] ==> points[|points| - 1].start <= start
    ensures var now := Add(points, start, value, plus);
            && now != [] && now[|now| - 1].start == start
            && forall i, j :: 0 <= i < j < |now| ==> now[i].start < now[j].start
  {}

  // ---- One pass over all events ----

  /** `x` is a bucket start: looking for a later instant from `x` gives what looking from the epoch gives. */
  ghost predicate Reached(step: nat -> nat, x: nat)
    requires forall t :: step(t) > t
  {
    forall ts: nat :: x <= ts ==> StartFrom(step, x, ts) == StartFrom(step, 0, ts)
  }

  lemma NextReached(step: nat -> nat, x: nat)
    requires (forall t :: step(t) > t) && Reached(step, x)
    ensures Reached(step, step(x))
  {
    forall ts: nat | step(x) <= ts ensures StartFrom(step, step(x), ts) == StartFrom(step, 0, ts) {
      assert StartFrom(step, x, ts) == StartFrom(step, 0, ts);
    }
  }

  /** The bucket of one instant: computed for fixed widths, reached step by step for calendars. */
  method Locate(spec: Spec, from: nat, to: nat, ts: nat) returns (start: nat, end: nat)
    requires Advances(spec) && (spec.Calendar? ==> to <= ts && Reached(spec.step, to))
    ensures start == StartOf(spec, ts) && end == EndOf(spec, start) && ts < end
    ensures spec.Calendar? ==> Reached(spec.step, end)
  {
    start, end := from, to;
    match spec
    case Fixed(width) =>
      start := ts - ts % width;
      end := start + width;
    case Calendar(step) =>
      while end <= ts
        invariant Reached(step, end)
        invariant end <= ts || (end == step(start) && start <= ts && Reached(step, start))
        decreases ts - end
      {
        start := end;
        end := step(start);
        NextReached(step, start);
      }
      assert StartFrom(step, start, ts) == start;
  }

  lemma AddNew(points: seq<Point>, start: nat, value: Float, plus: (Float, Float) -> Float)
    requires points != [] ==> points[|points| - 1].start != start
    ensures Add(points, start, value, plus) == points + [Point(start, plus(ZERO, value), 1)]
    ensures Add(points + [Point(start, ZERO, 0)], start, value, plus) == Add(points, start, value, plus)
  {
    assert (points + [Point(start, ZERO, 0)])[..|points|] == points;
  }

  lemma AddMore(points: seq<Point>, p: Point, value: Float, plus: (Float, Float) -> Float)
    ensures Add(points + [p], p.start, value, plus) == points + [Point(p.start, plus(p.sum, value), p.count + 1)]
  {
    assert (points + [p])[..|points|] == points;
  }

  /** Additions from left to right. */
  function SumOf(events: seq<Event>, plus: (Float, Float) -> Float): Float {
    if events == [] then ZERO else plus(SumOf(events[..|events| - 1], plus), events[|events| - 1].value)
  }

  /** The events of one bucket, summed in order. */
  method Gather(events: seq<Event>, from: nat, start: nat, end: nat, spec: Spec, plus: (Float, Float) -> Float)
    returns (i: nat, sum: Float, count: nat)
    requires Advances(spec) && Ordered(events) && from < |events|
    requires start == StartOf(spec, events[from].ts) && end == EndOf(spec, start) && events[from].ts < end
    ensures from < i <= |events| && count == i - from && sum == SumOf(events[from..i], plus)
    ensures forall j :: from <= j < i ==> StartOf(spec, events[j].ts) == start
    ensures i < |events| ==> end <= events[i].ts
  {
    hide StartOf, EndOf;
    i, sum, count := from, ZERO, 0;
    BucketOf(spec, events[from].ts, events[from].ts);
    while i < |events| && start <= events[i].ts < end
      invariant from <= i <= |events| && count == i - from && sum == SumOf(events[from..i], plus)
      invariant forall j :: from <= j < i ==> StartOf(spec, events[j].ts) == start
    {
      BucketOf(spec, events[from].ts, events[i].ts);
      assert events[from..i + 1][..i - from] == events[from..i];
      sum, count, i := plus(sum, events[i].value), count + 1, i + 1;
    }
  }

  /** Events of one new bucket make one point. */
  lemma {:induction false} OneBucket(points: seq<Point>, events: seq<Event>, start: nat, spec: Spec,
                                     plus: (Float, Float) -> Float)
    requires Advances(spec) && events != [] && (points != [] ==> points[|points| - 1].start != start)
    requires forall j :: 0 <= j < |events| ==> StartOf(spec, events[j].ts) == start
    ensures Fold(points, events, spec, plus) == points + [Point(start, SumOf(events, plus), |events|)]
    decreases |events|
  {
    hide StartOf, Add, Fold;
    var n := |events| - 1;
    var init, e := events[..n], events[n];
    assert events == init + [e];
    FoldLast(points, init, e, spec, plus);
    if n == 0 {
      assert init == [];
      NoEvents(points, spec, plus);
      AddNew(points, start, e.value, plus);
    } else {
      OneBucket(points, init, start, spec, plus);
      AddMore(points, Point(start, SumOf(init, plus), n), e.value, plus);
    }
  }

  /** aggregateSeriesUTC: the same points as adding the events one after the other. */
  method AggregateSeries(events: seq<Event>, spec: Spec, plus: (Float, Float) -> Float) returns (points: seq<Point>)
    requires Advances(spec) && Ordered(events)
    ensures points == Fold([], events, spec, plus)
  {
    hide StartOf, EndOf, Add, Fold;
    var start: nat, end: nat, i: nat := 0, 0, 0;
    points := [];
    NoEvents([], spec, plus);
    assert events[..0] == [];
    while i < |events|
      invariant 0 <= i <= |events| && points == Fold([], events[..i], spec, plus)
      invariant spec.Calendar? ==> Reached(spec.step, end) && (i < |events| ==> end <= events[i].ts)
      invariant i < |events| && points != [] ==> points[|points| - 1].start != StartOf(spec, events[i].ts)
    {
      ghost var from := i;
      start, end := Locate(spec, start, end, events[i].ts);
      var sum, count;
      i, sum, count := Gather(events, i, start, end, spec, plus);
      OneBucket(points, events[from..i], start, spec, plus);
      assert events[..i] == events[..from] + events[from..i];
      FoldAppend([], events[..from], events[from..i], spec, plus);
      points := points + [Point(start, sum, count)];
      if i < |events| { BucketOf(spec, events[from].ts, events[i].ts); }
    }
    assert events[..|events|] == events;
  }

  // ---- The same history in chunks ----

  function Total(points: seq<Point>): nat {
    if points == [] then 0 else Total(points[..|points| - 1]) + points[|points| - 1].count
  }

  lemma NoTotal()
    ensures Total([]) == 0
  {}

  /** The points stand for consecutive stretches of the events: each for those of its bucket, with their sum. */
  ghost predicate Covers(points: seq<Point>, events: seq<Event>, spec: Spec, plus: (Float, Float) -> Float)
    requires Advances(spec)
    decreases |points|
  {
    if points == [] then events == []
    else
      var last, init := points[|points| - 1], points[..|points| - 1];
      && 0 < last.count <= |events|
      && (forall j :: |events| - last.count <= j < |events| ==> StartOf(spec, events[j].ts) == last.start)
      && last.sum == SumOf(events[|events| - last.count..], plus)
      && Covers(init, events[..|events| - last.count], spec, plus)
  }

  lemma CoversSnoc(points: seq<Point>, p: Point, events: seq<Event>, more: seq<Event>, spec: Spec,
                   plus: (Float, Float) -> Float)
    requires Advances(spec) && Covers(points, events, spec, plus) && 0 < p.count == |more| && p.sum == SumOf(more, plus)
    requires forall j :: 0 <= j < |more| ==> StartOf(spec, more[j].ts) == p.start
    ensures Covers(points + [p], events + more, spec, plus)
  {
    hide StartOf, SumOf;
    var all := events + more;
    assert (points + [p])[..|points|] == points && all[..|all| - p.count] == events && all[|all| - p.count..] == more;
    forall j | |events| <= j < |all| ensures StartOf(spec, all[j].ts) == p.start {
      assert all[j] == more[j - |events|];
    }
  }

  lemma AddCovers(points: seq<Point>, events: seq<Event>, e: Event, spec: Spec, plus: (Float, Float) -> Float)
    requires Advances(spec) && Covers(points, events, spec, plus)
    ensures Covers(Add(points, StartOf(spec, e.ts), e.value, plus), events + [e], spec, plus)
  {
    var start := StartOf(spec, e.ts);
    if points != [] && points[|points| - 1].start == start {
      var last, init := points[|points| - 1], points[..|points| - 1];
      var n := |events| - last.count;
      var before, more := events[..n], events[n..] + [e];
      assert before + more == events + [e] && more[..|more| - 1] == events[n..];
      CoversSnoc(init, Point(start, plus(last.sum, e.value), last.count + 1), before, more, spec, plus);
    } else {
      assert SumOf([e][..0], plus) == ZERO;
      CoversSnoc(points, Point(start, plus(ZERO, e.value), 1), events, [e], spec, plus);
    }
  }

  lemma {:induction false} FoldCovers(events: seq<Event>, spec: Spec, plus: (Float, Float) -> Float)
    requires Advances(spec)
    ensures Covers(Fold([], events, spec, plus), events, spec, plus)
    decreases |events|
  {
    hide StartOf, Add;
    if events != [] {
      var n := |events| - 1;
      FoldCovers(events[..n], spec, plus);
      AddCovers(Fold([], events[..n], spec, plus), events[..n], events[n], spec, plus);
      assert events[..n] + [events[n]] == events;
    }
  }

  lemma {:induction false} CoversAt(points: seq<Point>, events: seq<Event>, spec: Spec, plus: (Float, Float) -> Float,
                                    k: nat)
    requires Advances(spec) && Covers(points, events, spec, plus) && k < |points|
    ensures Total(points) == |events| && 0 < points[k].count
    ensures Total(points[..k]) + points[k].count == Total(points[..k + 1]) <= |events|
    ensures forall j :: Total(points[..k]) <= j < Total(points[..k + 1]) ==>
            StartOf(spec, events[j].ts) == points[k].start
    ensures points[k].sum == SumOf(events[Total(points[..k])..Total(points[..k + 1])], plus)
    decreases |points|
  {
    hide StartOf, SumOf;
    var n := |points| - 1;
    var init, last := points[..n], points[n];
    var before := events[..|events| - last.count];
    assert points[..k + 1][..k] == points[..k];
    assert points[..|points|] == points;
    CoversTotal(init, before, spec, plus);
    if k < n {
      CoversAt(init, before, spec, plus, k);
      assert init[..k] == points[..k] && init[..k + 1] == points[..k + 1];
      assert before[Total(points[..k])..Total(points[..k + 1])] == events[Total(points[..k])..Total(points[..k + 1])];
    } else {
      assert events[|events| - last.count..] == events[Total(points[..k])..Total(points[..k + 1])];
    }
  }

  lemma {:induction false} CoversTotal(points: seq<Point>, events: seq<Event>, spec: Spec,
                                       plus: (Float, Float) -> Float)
    requires Advances(spec) && Covers(points, events, spec, plus)
    ensures Total(points) == |events|
    decreases |points|
  {
    if points != [] {
      var n := |points| - 1;
      CoversTotal(points[..n], events[..|events| - points[n].count], spec, plus);
    }
  }

  /** The events of one bucket of a chunk, added to the last point. */
  method AddBucket(points: seq<Point>, chunk: seq<Event>, from: nat, bucket: Point, spec: Spec,
                   plus: (Float, Float) -> Float)
    returns (points': seq<Point>)
    requires Advances(spec) && 0 < bucket.count && from + bucket.count <= |chunk|
    requires forall j :: from <= j < from + bucket.count ==> StartOf(spec, chunk[j].ts) == bucket.start
    ensures points' == Fold(points, chunk[from..from + bucket.count], spec, plus)
  {
    hide StartOf, Fold, Add;
    points' := points;
    if points' == [] || points'[|points'| - 1].start != bucket.start {
      points' := points' + [Point(bucket.start, ZERO, 0)];
      AddNew(points, bucket.start, chunk[from].value, plus);
    }
    ghost var before := points';
    NoEvents(points, spec, plus);
    assert chunk[from..from] == [];
    for j := 0 to bucket.count
      invariant points' != [] && points'[|points'| - 1].start == bucket.start
      invariant j == 0 ==> points' == before
      invariant j > 0 ==> points' == Fold(points, chunk[from..from + j], spec, plus)
    {
      var e := chunk[from + j];
      assert chunk[from..from + j + 1] == chunk[from..from + j] + [e];
      FoldAppend(points, chunk[from..from + j], [e], spec, plus);
      FoldOne(Fold(points, chunk[from..from + j], spec, plus), e, spec, plus);
      ghost var was := points';
      var last := points'[|points'| - 1];
      AddMore(points'[..|points'| - 1], last, e.value, plus);
      assert points' == points'[..|points'| - 1] + [last];
      points' := points'[..|points'| - 1] + [Point(bucket.start, plus(last.sum, e.value), last.count + 1)];
      assert points' == Add(was, bucket.start, e.value, plus);
    }
  }

  /** flush: continues the last point where a chunk boundary split its bucket. */
  method Flush(points: seq<Point>, chunk: seq<Event>, spec: Spec, plus: (Float, Float) -> Float)
    returns (points': seq<Point>)
    requires Advances(spec) && Ordered(chunk)
    ensures points' == Fold(points, chunk, spec, plus)
  {
    hide StartOf, Fold, Add, Covers, Total;
    var buckets := AggregateSeries(chunk, spec, plus);
    FoldCovers(chunk, spec, plus);
    points' := points;
    var index := 0;
    NoEvents(points, spec, plus);
    assert chunk[..0] == [] && buckets[..0] == [];
    NoTotal();
    for k := 0 to |buckets|
      invariant index == Total(buckets[..k]) <= |chunk|
      invariant points' == Fold(points, chunk[..index], spec, plus)
    {
      CoversAt(buckets, chunk, spec, plus, k);
      ghost var next := index + buckets[k].count;
      points' := AddBucket(points', chunk, index, buckets[k], spec, plus);
      assert chunk[..next] == chunk[..index] + chunk[index..next];
      FoldAppend(points, chunk[..index], chunk[index..next], spec, plus);
      index := index + buckets[k].count;
    }
    assert buckets[..|buckets|] == buckets;
    CoversTotal(buckets, chunk, spec, plus);
    assert chunk[..index] == chunk;
  }

  /** The point stands for exactly the events of its bucket, which are those from `lo` up to `hi`. */
  ghost predicate BucketAt(p: Point, events: seq<Event>, lo: nat, hi: nat, spec: Spec, plus: (Float, Float) -> Float)
    requires Advances(spec)
  {
    && lo + p.count == hi <= |events| && p.count > 0 && p.sum == SumOf(events[lo..hi], plus)
    && forall j :: 0 <= j < |events| ==> (lo <= j < hi <==> StartOf(spec, events[j].ts) == p.start)
  }

  /**
    What the points of an ordered history are: each bucket that has events once, in increasing order, with
    the number of its events and their sum from left to right.
    */
  ghost predicate Buckets(points: seq<Point>, events: seq<Event>, spec: Spec, plus: (Float, Float) -> Float)
    requires Advances(spec)
  {
    && Total(points) == |events|
    && (forall i, j :: 0 <= i < j < |points| ==> points[i].start < points[j].start)
    && forall k :: 0 <= k < |points| ==>
         BucketAt(points[k], events, Total(points[..k]), Total(points[..k + 1]), spec, plus)
  }

  /** The start of a bucket decides where in the history it is. */
  lemma BucketEdges(points: seq<Point>, events: seq<Event>, spec: Spec, plus: (Float, Float) -> Float, k: nat, j: nat)
    requires Advances(spec) && Ordered(events) && Covers(points, events, spec, plus) && k < |points| && j < |events|
    requires forall i, j :: 0 <= i < j < |points| ==> points[i].start < points[j].start
    ensures StartOf(spec, events[j].ts) == points[k].start ==> Total(points[..k]) <= j < Total(points[..k + 1])
  {
    hide StartOf, SumOf, Covers, Total;
    CoversAt(points, events, spec, plus, k);
    CoversTotal(points, events, spec, plus);
    if j < Total(points[..k]) {
      NoTotal();
      assert points[..0] == [];
      CoversAt(points, events, spec, plus, k - 1);
      BucketOf(spec, events[j].ts, events[Total(points[..k]) - 1].ts);
    } else if j >= Total(points[..k + 1]) {
      assert points[..|points|] == points;
      CoversAt(points, events, spec, plus, k + 1);
      BucketOf(spec, events[Total(points[..k + 1])].ts, events[j].ts);
    }
  }

  /** Adding the events one after the other gives these points. */
  lemma FoldIsBuckets(events: seq<Event>, spec: Spec, plus: (Float, Float) -> Float)
    requires Advances(spec) && Ordered(events)
    ensures Buckets(Fold([], events, spec, plus), events, spec, plus)
  {
    hide StartOf, SumOf, Covers, Total, Fold;
    var points := Fold([], events, spec, plus);
    FoldCovers(events, spec, plus);
    BucketsIncrease(events, spec, plus);
    CoversTotal(points, events, spec, plus);
    forall k | 0 <= k < |points|
      ensures BucketAt(points[k], events, Total(points[..k]), Total(points[..k + 1]), spec, plus)
    {
      CoversAt(points, events, spec, plus, k);
      forall j | 0 <= j < |events| && StartOf(spec, events[j].ts) == points[k].start
        ensures Total(points[..k]) <= j < Total(points[..k + 1])
      {
        BucketEdges(points, events, spec, plus, k, j);
      }
    }
  }

  /** series: streaming in chunks gives exactly the points of the whole history. */
  method StreamSeries(events: seq<Event>, spec: Spec, plus: (Float, Float) -> Float) returns (points: seq<Point>)
    requires Advances(spec) && Ordered(events)
    ensures points == Fold([], events, spec, plus) && Buckets(points, events, spec, plus)
  {
    hide StartOf, Fold, Add, Buckets;
    FoldIsBuckets(events, spec, plus);
    points := [];
    var chunk: seq<Event> := [];
    ghost var done := 0;
    NoEvents([], spec, plus);
    assert events[..0] == [];
    for i := 0 to |events|
      invariant 0 <= done <= i && chunk == events[done..i] && |chunk| < CHUNK
      invariant points == Fold([], events[..done], spec, plus)
    {
      chunk := chunk + [events[i]];
      assert events[done..i + 1] == events[done..i] + [events[i]];
      if |chunk| == CHUNK {
        points := Flush(points, chunk, spec, plus);
        assert events[..i + 1] == events[..done] + events[done..i + 1];
        FoldAppend([], events[..done], chunk, spec, plus);
        done := i + 1;
        chunk := [];
      }
    }
    assert events == events[..done] + events[done..];
    if |chunk| > 0 {
      points := Flush(points, chunk, spec, plus);
      FoldAppend([], events[..done], chunk, spec, plus);
      assert chunk == events[done..];
    } else {
      assert events[..done] == events;
    }
  }
}
