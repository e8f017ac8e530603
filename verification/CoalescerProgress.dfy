/** The coalescer comes to rest: every submit that got into the queue gets its outcome, and shutdown ends. */
module CoalescerProgress {
  import opened Options
  import opened Coalescer

  /** The steps of the dispatcher and of its workers. */
  predicate Internal(e: Event) {
    Answers(e) || e.TakeFirst? || e.TakeCarry? || e.Gather? || e.HandOver? || e.DrainEnd? || e.Finish?
  }

  ghost predicate CanMove(s: State) { exists e :: Internal(e) && Enabled(s, e) }

  /** Nothing is under way: the dispatcher waits for its queue, or it is done. */
  predicate AtRest(s: State) {
    && s.left == [] && s.right == []
    && (s.phase.Done? || (s.phase.Running? && !s.cancelled && s.wave == [] && s.carry.None? && s.queue == []))
  }

  predicate CanReturn(s: State, id: Id) { Enabled(s, Return(id)) || Enabled(s, ReturnLate(id)) }

  /** A submit outside the queue can enter it or is turned away by shutdown. */
  predicate CanGoOn(s: State, id: Id) { Enabled(s, Enqueue(id)) || Enabled(s, Refuse(id, true)) }

  /** Every submit can make its next step towards its outcome. */
  ghost predicate Settled(s: State) {
    && (forall id :: Awaits(s, id) ==> CanReturn(s, id))
    && (forall id :: id in s.offering ==> CanGoOn(s, id))
    && (s.cancelled ==> s.phase.Done?)
  }

  /** A step that is possible whenever the coalescer is not at rest. */
  function NextStep(s: State): (e: Event)
    requires !AtRest(s)
    ensures Internal(e) && Enabled(s, e)
  {
    if s.left != [] then Execute(true, {}, map[], false)
    else if s.right != [] then Execute(false, {}, map[], false)
    else match s.phase
      case Running =>
        if s.wave != [] then HandOver(true)
        else if s.carry.Some? then TakeCarry
        else if s.queue != [] then TakeFirst
        else Leave
      case Draining => if s.queue != [] then Drain else DrainEnd
      case Waiting => Finish
  }

  /** The dispatcher and its workers stop exactly when they are at rest. */
  lemma StopsExactlyAtRest(s: State)
    ensures CanMove(s) <==> !AtRest(s)
  {
    if !AtRest(s) {
      var e := NextStep(s);
      assert Internal(e) && Enabled(s, e);
    }
  }

  /**
    At rest every submit that got into the queue can return, with a result of its own unless shutdown
    came first, and after shutdown the dispatcher is done.
    */
  lemma RestSettles(s: State)
    requires Inv(s) && AtRest(s)
    ensures Settled(s)
    ensures forall id :: Awaits(s, id) && (!s.cancelled || id in s.touched) ==> Enabled(s, Return(id))
  {
    forall id | Awaits(s, id)
      ensures CanReturn(s, id) && (!s.cancelled || id in s.touched ==> Enabled(s, Return(id)))
    {
      assert Places(s, id) > 0;
    }
    hide Places;
  }

  // ---- A measure of the work under way ----

  function Rank(phase: Phase): nat {
    match phase
    case Running => 3
    case Draining => 2
    case Waiting => 1
    case Done => 0
  }

  function Measure(s: State): nat {
    4 * |s.queue| + (if s.carry.Some? then 3 else 0) + 2 * |s.wave| + |s.left| + |s.right| + Rank(s.phase)
  }

  /** Every step of the dispatcher or a worker lowers the measure; only a new request raises it. */
  lemma StepLowers(s: State, e: Event)
    requires Enabled(s, e)
    ensures Measure(Next(s, e)) + (if Internal(e) then 1 else 0) <= Measure(s) + if e.Enqueue? then 4 else 0
  {
    hide Sizes, Answer, AnswerAll, Recorded, Active;
  }

  function Internals(events: seq<Event>): nat {
    if events == [] then 0 else (if Internal(events[0]) then 1 else 0) + Internals(events[1..])
  }

  function Enqueues(events: seq<Event>): nat {
    if events == [] then 0 else (if events[0].Enqueue? then 1 else 0) + Enqueues(events[1..])
  }

  lemma {:induction false} RunLowers(s: State, events: seq<Event>)
    requires Legal(s, events)
    ensures Internals(events) + Measure(Run(s, events)) <= Measure(s) + 4 * Enqueues(events)
    decreases |events|
  {
    hide Enabled, Next, Measure;
    if events != [] {
      StepLowers(s, events[0]);
      RunLowers(Next(s, events[0]), events[1..]);
    }
  }

  /** Left to itself the coalescer comes to rest. */
  lemma {:induction false} ComesToRest(s: State) returns (steps: seq<Event>)
    ensures Legal(s, steps) && (forall e :: e in steps ==> Internal(e)) && |steps| <= Measure(s)
    ensures AtRest(Run(s, steps)) && Run(s, steps).cancelled == s.cancelled
    decreases Measure(s)
  {
    hide Enabled, Next, Measure, AtRest;
    if AtRest(s) {
      steps := [];
    } else {
      var e := NextStep(s);
      StepLowers(s, e);
      SameCancelled(s, e);
      var rest := ComesToRest(Next(s, e));
      steps := [e] + rest;
      assert steps[1..] == rest;
    }
  }

  lemma SameCancelled(s: State, e: Event)
    requires Enabled(s, e) && Internal(e)
    ensures Next(s, e).cancelled == s.cancelled
  {}

  /** From every reachable state some steps of the dispatcher and the workers alone settle every enqueued submit. */
  lemma EverySubmitSettles(s: State, before: seq<Event>) returns (steps: seq<Event>)
    requires Init(s) && Legal(s, before)
    ensures Legal(Run(s, before), steps) && (forall e :: e in steps ==> Internal(e))
            && |steps| <= Measure(Run(s, before))
    ensures Settled(Run(Run(s, before), steps)) && Run(Run(s, before), steps).cancelled == Run(s, before).cancelled
  {
    hide Init, Inv, AtRest, Settled, Measure, Internal;
    InitInv(s);
    RunKeepsInv(s, before);
    steps := ComesToRest(Run(s, before));
    RunKeepsInv(Run(s, before), steps);
    RestSettles(Run(Run(s, before), steps));
  }

  /**
    No schedule avoids it: the dispatcher and the workers can take only so many steps per enqueued
    request, and when they can take no more every enqueued submit can return and shutdown has ended.
    */
  lemma NoScheduleStarves(s: State, before: seq<Event>, more: seq<Event>)
    requires Init(s) && Legal(s, before) && Legal(Run(s, before), more)
    ensures Internals(more) <= Measure(Run(s, before)) + 4 * Enqueues(more)
    ensures !CanMove(Run(Run(s, before), more)) ==> Settled(Run(Run(s, before), more))
  {
    hide Init, Inv, AtRest, Settled, CanMove, Measure, Internal;
    InitInv(s);
    RunKeepsInv(s, before);
    RunKeepsInv(Run(s, before), more);
    RunLowers(Run(s, before), more);
    var t := Run(Run(s, before), more);
    StopsExactlyAtRest(t);
    if AtRest(t) { RestSettles(t); }
  }

  // ---- Every submit returns ----

  lemma {:induction false} Append(s: State, a: seq<Event>, b: seq<Event>)
    requires Legal(s, a) && Legal(Run(s, a), b)
    ensures Legal(s, a + b) && Run(s, a + b) == Run(Run(s, a), b)
    decreases |a|
  {
    hide Enabled, Next;
    if a == [] {
      assert a + b == b;
    } else {
      assert (a + b)[1..] == a[1..] + b;
      Append(Next(s, a[0]), a[1..], b);
    }
  }

  lemma One(s: State, e: Event)
    requires Enabled(s, e)
    ensures Legal(s, [e]) && Run(s, [e]) == Next(s, e)
  {
    hide Enabled, Next;
    assert [e][1..] == [];
    assert Legal(Next(s, e), []);
  }

  lemma {:induction false} InternalKeeps(s: State, steps: seq<Event>)
    requires Legal(s, steps) && forall e :: e in steps ==> Internal(e)
    ensures Run(s, steps).items == s.items && Run(s, steps).offering == s.offering
    decreases |steps|
  {
    hide Enabled, Next, Internal;
    if steps != [] {
      assert steps[0] in steps;
      InternalStep(s, steps[0]);
      InternalKeeps(Next(s, steps[0]), steps[1..]);
    }
  }

  lemma InternalStep(s: State, e: Event)
    requires Enabled(s, e) && Internal(e)
    ensures Next(s, e).items == s.items && Next(s, e).offering == s.offering
  {
    hide Sizes, Answer, AnswerAll, Recorded, Active;
  }

  /** A submit that is past the queue returns once the coalescer is at rest. */
  lemma ReturnsAtRest(s: State, id: Id) returns (steps: seq<Event>)
    requires Inv(s) && AtRest(s) && id in s.items && id !in s.offering
    ensures Legal(s, steps) && id in Run(s, steps).returned
  {
    hide Inv, AtRest;
    if id in s.returned {
      steps := [];
    } else {
      RestSettles(s);
      assert CanReturn(s, id);
      var e := if Enabled(s, Return(id)) then Return(id) else ReturnLate(id);
      One(s, e);
      steps := [e];
    }
  }

  lemma ReturnsOnceQueued(s: State, id: Id) returns (steps: seq<Event>)
    requires Inv(s) && id in s.items && id !in s.offering
    ensures Legal(s, steps) && id in Run(s, steps).returned
  {
    hide Inv, AtRest, Legal, Run, Measure;
    var a := ComesToRest(s);
    RunKeepsInv(s, a);
    InternalKeeps(s, a);
    var b := ReturnsAtRest(Run(s, a), id);
    Append(s, a, b);
    steps := a + b;
  }

  lemma StillRuns(s: State)
    requires Inv(s) && !s.cancelled
    ensures s.phase.Running?
  {}

  /** A submit at rest enters the queue, or shutdown turns it away. */
  lemma EntersAtRest(s: State, id: Id) returns (steps: seq<Event>)
    requires Inv(s) && AtRest(s) && id in s.offering && id in s.items
    ensures Legal(s, steps) && id in Run(s, steps).returned
  {
    hide Inv, Legal, Run;
    if s.cancelled {
      One(s, Refuse(id, true));
      steps := [Refuse(id, true)];
    } else {
      StillRuns(s);
      var e := Enqueue(id);
      One(s, e);
      StepKeepsInv(s, e);
      var b := ReturnsOnceQueued(Next(s, e), id);
      Append(s, [e], b);
      steps := [e] + b;
    }
  }

  /** From every reachable state every submit, whatever shutdown does, returns after some further steps. */
  lemma EverySubmitReturns(s: State, before: seq<Event>, id: Id) returns (steps: seq<Event>)
    requires Init(s) && Legal(s, before) && id in Run(s, before).items
    ensures Legal(Run(s, before), steps) && id in Run(Run(s, before), steps).returned
  {
    hide Inv, AtRest, Legal, Run, Measure;
    InitInv(s);
    RunKeepsInv(s, before);
    var now := Run(s, before);
    if id in now.offering {
      var a := ComesToRest(now);
      RunKeepsInv(now, a);
      InternalKeeps(now, a);
      var b := EntersAtRest(Run(now, a), id);
      Append(now, a, b);
      steps := a + b;
    } else {
      steps := ReturnsOnceQueued(now, id);
    }
  }
}
