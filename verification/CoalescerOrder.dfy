/** What goes into one shared transaction: bounded batches, with requests in the order in which they arrived. */
module CoalescerOrder {
  import opened Options
  import opened Coalescer

  // ---- Batches are bounded ----

  lemma {:induction false} JoinedSnoc(ids: seq<Id>, id: Id, items: map<Id, seq<Item>>)
    ensures |Joined(ids + [id], items)| == |Joined(ids, items)| + if id in items then |items[id]| else 0
  {
    if ids == [] {
      assert [] + [id] == [id] && [id][1..] == [];
    } else {
      assert (ids + [id])[1..] == ids[1..] + [id];
      JoinedSnoc(ids[1..], id, items);
    }
  }

  /** What the dispatcher counts is the length of the batch. */
  lemma {:induction false} SizesAreLengths(ids: seq<Id>, items: map<Id, seq<Item>>)
    ensures Sizes(items, ids) == |Joined(ids, items)|
  {
    if ids != [] {
      var n := |ids| - 1;
      assert ids == ids[..n] + [ids[n]];
      SizesAreLengths(ids[..n], items);
      JoinedSnoc(ids[..n], ids[n], items);
    }
  }

  lemma {:induction false} ActiveIsSmaller(wave: seq<Id>, gone: set<Id>, items: map<Id, seq<Item>>)
    ensures |Active(wave, gone)| <= |wave| && |Joined(Active(wave, gone), items)| <= |Joined(wave, items)|
  {
    if wave != [] {
      ActiveIsSmaller(wave[1..], gone, items);
      var rest := Active(wave[1..], gone);
      if wave[0] in gone { assert Active(wave, gone) == rest; } else { assert ([wave[0]] + rest)[1..] == rest; }
    }
  }

  /** A transaction has at most 32 requests, and one with several requests at most a batch of items. */
  ghost predicate Bounded(t: Transaction, batchSize: nat) {
    |t.active| <= 32 && (|t.active| > 1 ==> |t.batch| <= batchSize)
  }

  ghost predicate AllBounded(s: State) { forall t :: t in s.transactions ==> Bounded(t, s.batchSize) }

  lemma StepKeepsBounded(s: State, e: Event)
    requires Enabled(s, e) && WavesFit(s) && AllBounded(s)
    ensures AllBounded(Next(s, e))
  {
    hide Sizes, Joined, Active, AnswerAll, Local;
    if e.Execute? {
      var wave := Worker(s, e.onLeft);
      ActiveIsSmaller(wave, e.gone, s.items);
      SizesAreLengths(wave, s.items);
    }
  }

  lemma {:induction false} RunKeepsBounded(s: State, events: seq<Event>)
    requires Inv(s) && WavesFit(s) && AllBounded(s) && Legal(s, events)
    ensures AllBounded(Run(s, events))
    decreases |events|
  {
    hide Inv, WavesFit, AllBounded, Enabled, Next;
    if events != [] {
      StepKeepsInv(s, events[0]);
      StepKeepsWaves(s, events[0]);
      StepKeepsBounded(s, events[0]);
      RunKeepsBounded(Next(s, events[0]), events[1..]);
    }
  }

  /** In every run. */
  lemma TransactionsAreBounded(s: State, events: seq<Event>)
    requires Init(s) && Legal(s, events)
    ensures forall t :: t in Run(s, events).transactions ==>
              |t.active| <= 32 && (|t.active| > 1 ==> |t.batch| <= Run(s, events).batchSize)
  {
    hide Inv, Legal, Run;
    InitInv(s);
    NoWaveFits(s);
    RunKeepsBounded(s, events);
  }

  // ---- First come, first served ----

  type Arrivals = map<Id, nat>

  /** The queue numbers the requests as they come in. */
  function Arrive(arrivals: Arrivals, e: Event): Arrivals {
    if e.Enqueue? then arrivals[e.id := |arrivals|] else arrivals
  }

  function ArrivalsOf(arrivals: Arrivals, events: seq<Event>): Arrivals
    decreases |events|
  {
    if events == [] then arrivals else ArrivalsOf(Arrive(arrivals, events[0]), events[1..])
  }

  ghost predicate Served(ids: seq<Id>, arrivals: Arrivals) {
    && (forall id :: id in ids ==> id in arrivals)
    && forall i, j :: 0 <= i < j < |ids| ==> arrivals[ids[i]] < arrivals[ids[j]]
  }

  /** What the dispatcher has not handed over yet, oldest first. */
  function Line(s: State): seq<Id> { s.wave + Carried(s.carry) + s.queue }

  ghost predicate OrderInv(s: State, arrivals: Arrivals) {
    && (forall id :: id in arrivals ==> id in s.items && id !in s.offering && arrivals[id] < |arrivals|)
    && Served(Line(s), arrivals) && Served(s.left, arrivals) && Served(s.right, arrivals)
    && forall t :: t in s.transactions ==> Served(t.active, arrivals)
  }

  lemma ServedParts(a: seq<Id>, b: seq<Id>, arrivals: Arrivals)
    requires Served(a + b, arrivals)
    ensures Served(a, arrivals) && Served(b, arrivals)
  {
    forall i, j | 0 <= i < j < |b| ensures b[i] in arrivals && b[j] in arrivals && arrivals[b[i]] < arrivals[b[j]] {
      assert (a + b)[|a| + i] == b[i] && (a + b)[|a| + j] == b[j];
    }
    forall id | id in b ensures id in arrivals { assert id in a + b; }
    forall id | id in a ensures id in arrivals { assert id in a + b; }
    forall i, j | 0 <= i < j < |a| ensures a[i] in arrivals && a[j] in arrivals && arrivals[a[i]] < arrivals[a[j]] {
      assert (a + b)[i] == a[i] && (a + b)[j] == a[j];
    }
  }

  lemma ServedWithout(a: seq<Id>, b: seq<Id>, c: seq<Id>, arrivals: Arrivals)
    requires Served(a + b + c, arrivals)
    ensures Served(a + c, arrivals)
  {
    var s := a + b + c;
    forall i, j | 0 <= i < j < |a + c|
      ensures (a + c)[i] in arrivals && (a + c)[j] in arrivals && arrivals[(a + c)[i]] < arrivals[(a + c)[j]]
    {
      var i', j' := if i < |a| then i else i + |b|, if j < |a| then j else j + |b|;
      assert s[i'] == (a + c)[i] && s[j'] == (a + c)[j];
    }
    forall id | id in a + c ensures id in arrivals { assert id in s; }
  }

  lemma ServedFirst(id: Id, ids: seq<Id>, arrivals: Arrivals)
    requires id in arrivals && Served(ids, arrivals) && forall x :: x in ids ==> arrivals[id] < arrivals[x]
    ensures Served([id] + ids, arrivals)
  {}

  lemma {:induction false} ActiveServed(wave: seq<Id>, gone: set<Id>, arrivals: Arrivals)
    requires Served(wave, arrivals)
    ensures Served(Active(wave, gone), arrivals) && forall id :: id in Active(wave, gone) ==> id in wave
  {
    if wave != [] {
      assert wave == [wave[0]] + wave[1..];
      ServedParts([wave[0]], wave[1..], arrivals);
      ActiveServed(wave[1..], gone, arrivals);
      var rest := Active(wave[1..], gone);
      if wave[0] in gone { assert Active(wave, gone) == rest; } else { ServedFirst(wave[0], rest, arrivals); }
    }
  }

  lemma ServedStays(ids: seq<Id>, arrivals: Arrivals, id: Id)
    requires Served(ids, arrivals) && id !in arrivals
    ensures Served(ids, arrivals[id := |arrivals|])
  {}

  lemma ServedLast(ids: seq<Id>, arrivals: Arrivals, id: Id)
    requires Served(ids, arrivals) && id !in arrivals && forall x :: x in arrivals ==> arrivals[x] < |arrivals|
    ensures Served(ids + [id], arrivals[id := |arrivals|])
  {}

  lemma EnqueueKeepsOrder(s: State, arrivals: Arrivals, id: Id)
    requires OrderInv(s, arrivals) && Enabled(s, Enqueue(id)) && Inv(s)
    ensures OrderInv(Next(s, Enqueue(id)), Arrive(arrivals, Enqueue(id)))
  {
    hide Inv, Served;
    var s', arrivals' := Next(s, Enqueue(id)), Arrive(arrivals, Enqueue(id));
    OfferedIsKnown(s, id);
    assert Line(s') == Line(s) + [id];
    ServedLast(Line(s), arrivals, id);
    ServedStays(s.left, arrivals, id);
    ServedStays(s.right, arrivals, id);
    forall t | t in s.transactions ensures Served(t.active, arrivals') { ServedStays(t.active, arrivals, id); }
    assert arrivals'.Keys == arrivals.Keys + {id};
  }

  lemma OfferedIsKnown(s: State, id: Id)
    requires Inv(s) && id in s.offering
    ensures id in s.items
  {
    OfferedPlace(s, id);
  }

  /** The dispatcher takes from the front of the line and leaves the rest in order. */
  lemma DispatchKeepsLine(s: State, arrivals: Arrivals, e: Event)
    requires Enabled(s, e) && Served(Line(s), arrivals) && !e.Enqueue?
    ensures Served(Line(Next(s, e)), arrivals)
  {
    hide AnswerAll, Answer, Recorded, Sizes, Served;
    var s' := Next(s, e);
    match e {
      case TakeFirst => assert Line(s') == Line(s);
      case TakeCarry => assert Line(s') == Line(s);
      case Gather => assert Line(s') == Line(s);
      case Skip => DropFront(s, s', arrivals);
      case Drain => DropFront(s, s', arrivals);
      case SkipFirst => DropWave(s, s', arrivals);
      case CancelWave => DropWave(s, s', arrivals);
      case HandOver(_) => DropWave(s, s', arrivals);
      case Leave => ServedWithout(s.wave, Carried(s.carry), s.queue, arrivals);
        assert Line(s') == s.wave + s.queue;
      case _ =>
    }
  }

  lemma DropFront(s: State, s': State, arrivals: Arrivals)
    requires Served(Line(s), arrivals) && s.queue != []
    requires s'.wave == s.wave && s'.carry == s.carry && s'.queue == s.queue[1..]
    ensures Served(Line(s'), arrivals)
  {
    hide Served;
    var held := s.wave + Carried(s.carry);
    assert Line(s) == held + [s.queue[0]] + s.queue[1..];
    ServedWithout(held, [s.queue[0]], s.queue[1..], arrivals);
  }

  lemma DropWave(s: State, s': State, arrivals: Arrivals)
    requires Served(Line(s), arrivals) && s'.wave == [] && s'.carry == s.carry && s'.queue == s.queue
    ensures Served(Line(s'), arrivals)
  {
    assert Line(s) == s.wave + (Carried(s.carry) + s.queue) && Line(s') == Carried(s.carry) + s.queue;
    ServedParts(s.wave, Carried(s.carry) + s.queue, arrivals);
  }

  lemma StepKeepsOrder(s: State, arrivals: Arrivals, e: Event)
    requires Inv(s) && OrderInv(s, arrivals) && Enabled(s, e)
    ensures OrderInv(Next(s, e), Arrive(arrivals, e))
  {
    hide Inv, Served, Line, Active, Joined, AnswerAll, Answer, Sizes;
    if e.Enqueue? {
      EnqueueKeepsOrder(s, arrivals, e.id);
    } else {
      DispatchKeepsLine(s, arrivals, e);
      if e.Execute? { ActiveServed(Worker(s, e.onLeft), e.gone, arrivals); }
      if e.HandOver? { WaveServed(s, arrivals); }
      NothingServed(arrivals);
    }
  }

  lemma WaveServed(s: State, arrivals: Arrivals)
    requires Served(Line(s), arrivals)
    ensures Served(s.wave, arrivals)
  {
    assert Line(s) == s.wave + (Carried(s.carry) + s.queue);
    ServedParts(s.wave, Carried(s.carry) + s.queue, arrivals);
  }

  lemma NothingServed(arrivals: Arrivals)
    ensures Served([], arrivals)
  {}

  lemma {:induction false} RunKeepsOrder(s: State, arrivals: Arrivals, events: seq<Event>)
    requires Inv(s) && OrderInv(s, arrivals) && Legal(s, events)
    ensures OrderInv(Run(s, events), ArrivalsOf(arrivals, events))
    decreases |events|
  {
    hide Inv, OrderInv, Enabled, Next, Arrive;
    if events != [] {
      StepKeepsInv(s, events[0]);
      StepKeepsOrder(s, arrivals, events[0]);
      RunKeepsOrder(Next(s, events[0]), Arrive(arrivals, events[0]), events[1..]);
    }
  }

  /** In every run the requests of a transaction are in the order in which they entered the queue. */
  lemma TransactionsServeInOrder(s: State, events: seq<Event>)
    requires Init(s) && Legal(s, events)
    ensures forall t, i, j :: t in Run(s, events).transactions && 0 <= i < j < |t.active| ==>
              var arrivals := ArrivalsOf(map[], events);
              t.active[i] in arrivals && t.active[j] in arrivals && arrivals[t.active[i]] < arrivals[t.active[j]]
  {
    hide Inv, Legal, Run;
    InitInv(s);
    assert Line(s) == [];
    RunKeepsOrder(s, map[], events);
  }

  // ---- Requests are shared ----

  lemma {:induction false} Extend(s: State, done: seq<Event>, e: Event)
    requires Legal(s, done) && Enabled(Run(s, done), e)
    ensures Legal(s, done + [e]) && Run(s, done + [e]) == Next(Run(s, done), e)
    decreases |done|
  {
    hide Enabled, Next;
    if done == [] {
      assert [] + [e] == [e] && [e][1..] == [];
      assert Legal(Next(s, e), []);
    } else {
      assert (done + [e])[1..] == done[1..] + [e];
      Extend(Next(s, done[0]), done[1..], e);
    }
  }

  /** Two submits that arrive together run in one transaction. */
  lemma TwoShare(batchSize: nat, x: Item, y: Item) returns (events: seq<Event>)
    requires batchSize >= 2
    ensures Legal(Fresh(batchSize), events)
    ensures Run(Fresh(batchSize), events).transactions == [Transaction([0, 1], [x, y], map[], false)]
  {
    hide Legal, Run;
    var s := Fresh(batchSize);
    events := TwoQueued(s, x, y);
    var t := Run(s, events);
    assert Sizes(t.items, [0]) == 1 && Sizes(t.items, [0, 1]) == 2 by {
      assert [0, 1][..1] == [0] && [0][..0] == [];
    }
    hide Sizes;
    Extend(s, events, TakeFirst);
    events := events + [TakeFirst];
    assert [0] + [1] == [0, 1];
    Extend(s, events, Gather);
    events := events + [Gather];
    Extend(s, events, HandOver(true));
    events := events + [HandOver(true)];
    var run := Execute(true, {}, map[], false);
    Extend(s, events, run);
    BothActive(t.items, x, y);
    events := events + [run];
  }

  lemma TwoQueued(s: State, x: Item, y: Item) returns (events: seq<Event>)
    requires Init(s)
    ensures Legal(s, events)
    ensures Run(s, events) == s.(items := map[0 := [x], 1 := [y]], queue := [0, 1])
  {
    hide Legal, Run;
    events := [];
    assert Legal(s, []) && Run(s, []) == s by { Nothing(s); }
    Extend(s, events, Submit(0, [x]));
    events := events + [Submit(0, [x])];
    Extend(s, events, Submit(1, [y]));
    events := events + [Submit(1, [y])];
    Extend(s, events, Enqueue(0));
    events := events + [Enqueue(0)];
    Extend(s, events, Enqueue(1));
    events := events + [Enqueue(1)];
  }

  lemma Nothing(s: State)
    ensures Legal(s, []) && Run(s, []) == s
  {}

  lemma BothActive(items: map<Id, seq<Item>>, x: Item, y: Item)
    requires items == map[0 := [x], 1 := [y]]
    ensures Active([0, 1], {}) == [0, 1] && Joined([0, 1], items) == [x, y]
  {
    assert [0, 1][1..] == [1] && [1][1..] == [];
    assert Joined([1], items) == [y] + Joined([], items) && Joined([], items) == [];
    assert Active([1], {}) == [1] + Active([], {});
  }
}
