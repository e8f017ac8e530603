/** Sharing one transaction among concurrent submits: the queue, the dispatcher, its workers and shutdown. */
module Coalescer {
  import opened Options

  type Id = nat
  type Item = nat

  /** What a submit returns: cancelled by shutdown, given up by its own caller, or its part of a transaction. */
  datatype Outcome = Cancelled | CallerGone | Ran(rejected: map<nat, nat>, failed: bool)

  datatype Phase = Running | Draining | Waiting | Done

  /** A shared transaction: its requests, their items one after the other, and what came of it. */
  datatype Transaction = Transaction(active: seq<Id>, batch: seq<Item>, rejected: map<nat, nat>, failed: bool)

  datatype State = State(
    batchSize: nat,
    items: map<Id, seq<Item>>,                  // items of every submit so far
    offering: set<Id>,                          // submits that still try to enqueue
    queue: seq<Id>, carry: Option<Id>, wave: seq<Id>,
    left: seq<Id>, right: seq<Id>,              // waves in the hands of the two workers
    phase: Phase, cancelled: bool,
    touched: set<Id>,                           // requests whose items reached the database worker
    transactions: seq<Transaction>,
    results: map<Id, Outcome>,                  // result channels, of capacity one
    returned: map<Id, Outcome>)

  datatype Event =
    | Submit(id: Id, own: seq<Item>) | Refuse(id: Id, shutdown: bool) | Enqueue(id: Id)
    | Shutdown
    | TakeFirst | TakeCarry | Gather | Skip | SkipFirst
    | HandOver(onLeft: bool) | CancelWave | Leave
    | Drain | DrainEnd | Execute(onLeft: bool, gone: set<Id>, rejected: map<nat, nat>, failed: bool) | Finish
    | Return(id: Id) | ReturnLate(id: Id)

  function Worker(s: State, onLeft: bool): seq<Id> { if onLeft then s.left else s.right }

  predicate Awaits(s: State, id: Id) { id in s.items && id !in s.offering && id !in s.returned }

  function Size(items: map<Id, seq<Item>>, id: Id): nat { if id in items then |items[id]| else 0 }

  function Sizes(items: map<Id, seq<Item>>, ids: seq<Id>): nat {
    if ids == [] then 0 else Sizes(items, ids[..|ids| - 1]) + Size(items, ids[|ids| - 1])
  }

  /** The dispatcher still takes requests into its wave. */
  predicate Collecting(s: State) {
    s.phase.Running? && s.wave != [] && s.carry.None? && s.queue != [] && |s.wave| < 32
      && Sizes(s.items, s.wave) < s.batchSize
  }

  predicate Enabled(s: State, e: Event) {
    match e
    case Submit(id, _) => id !in s.items
    case Refuse(id, shutdown) => id in s.offering && (shutdown ==> s.cancelled)
    case Enqueue(id) => id in s.offering && |s.queue| < 32
    case Shutdown => true
    case TakeFirst => s.phase.Running? && s.wave == [] && s.carry.None? && s.queue != []
    case TakeCarry => s.phase.Running? && s.wave == [] && s.carry.Some?
    case Gather => Collecting(s)
    case Skip => Collecting(s)
    case SkipFirst => s.phase.Running? && |s.wave| == 1
    case HandOver(onLeft) => s.phase.Running? && s.wave != [] && Worker(s, onLeft) == []
    case CancelWave => s.phase.Running? && s.wave != [] && s.cancelled
    case Leave => s.phase.Running? && s.wave == [] && s.cancelled
    case Drain => s.phase.Draining? && s.queue != []
    case DrainEnd => s.phase.Draining? && s.queue == []
    case Execute(onLeft, _, _, _) => Worker(s, onLeft) != []
    case Finish => s.phase.Waiting? && s.left == [] && s.right == []
    case Return(id) => Awaits(s, id) && id in s.results
    case ReturnLate(id) => Awaits(s, id) && id !in s.results && s.phase.Done?
  }

  /** Sending one result to every request of a sequence. */
  function Answer(results: map<Id, Outcome>, ids: seq<Id>, o: Outcome): map<Id, Outcome> {
    results + map id | id in ids :: o
  }

  function Active(wave: seq<Id>, gone: set<Id>): seq<Id> {
    if wave == [] then []
    else (if wave[0] in gone then [] else [wave[0]]) + Active(wave[1..], gone)
  }

  /** Position of a request's first item in the shared batch. */
  function Offset(active: seq<Id>, items: map<Id, seq<Item>>, id: Id): nat {
    if active == [] || active[0] == id then 0 else Size(items, active[0]) + Offset(active[1..], items, id)
  }

  /** The items of the shared batch, request after request. */
  function Joined(active: seq<Id>, items: map<Id, seq<Item>>): seq<Item> {
    if active == [] then [] else (if active[0] in items then items[active[0]] else []) + Joined(active[1..], items)
  }

  /** A request's own part of the rejections, under its own indices. */
  function Local(rejected: map<nat, nat>, offset: nat, count: nat): map<nat, nat> {
    map i: nat | 0 <= i < count && Global(offset, i) in rejected :: rejected[Global(offset, i)]
  }

  function Global(offset: nat, i: nat): nat { offset + i }

  function AnswerAll(s: State, wave: seq<Id>, gone: set<Id>, rejected: map<nat, nat>, failed: bool): map<Id, Outcome> {
    var active := Active(wave, gone);
    s.results + map id | id in wave ::
      if id in gone then CallerGone
      else Ran(Local(rejected, Offset(active, s.items, id), Size(s.items, id)), failed)
  }

  /** A transaction runs unless no caller is left. */
  function Recorded(done: seq<Transaction>, active: seq<Id>, items: map<Id, seq<Item>>, rejected: map<nat, nat>,
                    failed: bool): seq<Transaction>
  {
    if active == [] then done else done + [Transaction(active, Joined(active, items), rejected, failed)]
  }

  function Next(s: State, e: Event): State
    requires Enabled(s, e)
  {
    match e
    case Submit(id, own) => s.(items := s.items[id := own], offering := s.offering + {id})
    case Refuse(id, shutdown) =>
      s.(offering := s.offering - {id}, returned := s.returned[id := if shutdown then Cancelled else CallerGone])
    case Enqueue(id) => s.(offering := s.offering - {id}, queue := s.queue + [id])
    case Shutdown => s.(cancelled := true)
    case TakeFirst => s.(wave := [s.queue[0]], queue := s.queue[1..])
    case TakeCarry => s.(wave := [s.carry.value], carry := None)
    case Gather =>
      if Sizes(s.items, s.wave + [s.queue[0]]) <= s.batchSize
        then s.(wave := s.wave + [s.queue[0]], queue := s.queue[1..])
      else s.(carry := Some(s.queue[0]), queue := s.queue[1..])
    case Skip => s.(results := Answer(s.results, [s.queue[0]], CallerGone), queue := s.queue[1..])
    case SkipFirst => s.(results := Answer(s.results, s.wave, CallerGone), wave := [])
    case HandOver(onLeft) => if onLeft then s.(left := s.wave, wave := []) else s.(right := s.wave, wave := [])
    case CancelWave => s.(results := Answer(s.results, s.wave, Cancelled), wave := [])
    case Leave =>
      s.(results := if s.carry.Some? then Answer(s.results, [s.carry.value], Cancelled) else s.results,
      carry := None, phase := Draining)
    case Drain => s.(results := Answer(s.results, [s.queue[0]], Cancelled), queue := s.queue[1..])
    case DrainEnd => s.(phase := Waiting)
    case Execute(onLeft, gone, rejected, failed) =>
      var wave := Worker(s, onLeft);
      s.(results := AnswerAll(s, wave, gone, rejected, failed),
      touched := s.touched + (set id | id in wave && id !in gone),
      transactions := Recorded(s.transactions, Active(wave, gone), s.items, rejected, failed),
      left := if onLeft then [] else s.left, right := if onLeft then s.right else [])
    case Finish => s.(phase := Done)
    case Return(id) => s.(returned := s.returned[id := s.results[id]])
    case ReturnLate(id) => s.(returned := s.returned[id := Cancelled])
  }

  predicate Init(s: State) {
    && s.items == map[] && s.offering == {} && s.queue == [] && s.carry.None? && s.wave == [] && s.left == []
       && s.right == []
    && s.phase.Running? && !s.cancelled && s.touched == {} && s.transactions == [] && s.results == map[]
       && s.returned == map[]
  }

  /** A new coalescer. */
  function Fresh(batchSize: nat): (s: State)
    ensures Init(s) && s.batchSize == batchSize
  {
    State(batchSize, map[], {}, [], None, [], [], [], Running, false, {}, [], map[], map[])
  }

  /** Everywhere a request can be: it is in exactly one place, so its channel gets at most one result. */
  function Carried(carry: Option<Id>): seq<Id> { if carry.Some? then [carry.value] else [] }

  function Occurs(ids: seq<Id>, id: Id): (n: nat)
    ensures n > 0 <==> id in ids
  {
    multiset(ids)[id]
  }

  function Places(s: State, id: Id): nat {
    (if id in s.offering then 1 else 0) + Occurs(s.queue, id) + Occurs(Carried(s.carry), id) + Occurs(s.wave, id)
    + Occurs(s.left, id) + Occurs(s.right, id) + (if id in s.results then 1 else 0)
  }

  ghost predicate Inv(s: State) {
    && (forall id :: Places(s, id) <= 1)
    && (forall id :: Places(s, id) > 0 ==> id in s.items)
    && (forall id :: Awaits(s, id) ==> Places(s, id) > 0)
    && (forall id :: id in s.touched ==> id in s.results && s.results[id].Ran?)
    && (forall id :: id in s.returned ==> id in s.items && id !in s.offering)
    && (forall id :: id in s.returned && id in s.results ==> s.returned[id] == s.results[id])
    && (forall id :: id in s.returned && id !in s.results ==>
          s.returned[id] == Cancelled || s.returned[id] == CallerGone)
    && (s.phase.Running? || (s.wave == [] && s.carry.None? && s.cancelled))
    && (s.phase.Done? ==> s.left == [] && s.right == [])
    && (forall id :: id in s.returned && id !in s.results ==> Places(s, id) == 0 || s.phase.Done?)
  }

  // ---- Requests never multiply ----

  predicate Moves(e: Event) { e.Enqueue? || e.TakeFirst? || e.TakeCarry? || e.Gather? || e.HandOver? }

  /** The requests whose result channel is written. */
  function Answered(s: State, e: Event): seq<Id>
    requires Enabled(s, e)
  {
    match e
    case Skip => [s.queue[0]]
    case Drain => [s.queue[0]]
    case SkipFirst => s.wave
    case CancelWave => s.wave
    case Leave => Carried(s.carry)
    case Execute(onLeft, _, _, _) => Worker(s, onLeft)
    case _ => []
  }

  predicate Answers(e: Event) { e.Skip? || e.Drain? || e.SkipFirst? || e.CancelWave? || e.Leave? || e.Execute? }

  lemma OccursCons(ids: seq<Id>, id: Id)
    requires ids != []
    ensures Occurs(ids, id) == Occurs([ids[0]], id) + Occurs(ids[1..], id)
  {
    assert ids == [ids[0]] + ids[1..];
  }

  lemma OccursOne(x: Id, id: Id)
    ensures Occurs([x], id) == (if x == id then 1 else 0) && Occurs([], id) == 0
  {}

  lemma OccursLast(ids: seq<Id>, x: Id, id: Id)
    ensures Occurs(ids + [x], id) == Occurs(ids, id) + Occurs([x], id)
  {}

  lemma EnqueueKeepsPlaces(s: State, x: Id, id: Id)
    requires Enabled(s, Enqueue(x))
    ensures Places(Next(s, Enqueue(x)), id) == Places(s, id)
  {
    hide Occurs, Carried;
    OccursOne(x, id);
    OccursLast(s.queue, x, id);
  }

  lemma TakeKeepsPlaces(s: State, id: Id)
    requires Enabled(s, TakeFirst)
    ensures Places(Next(s, TakeFirst), id) == Places(s, id)
  {
    hide Occurs, Carried;
    OccursCons(s.queue, id);
    OccursOne(s.queue[0], id);
  }

  lemma GatherKeepsPlaces(s: State, id: Id)
    requires Enabled(s, Gather)
    ensures Places(Next(s, Gather), id) == Places(s, id)
  {
    hide Occurs, Sizes;
    var s' := Next(s, Gather);
    OccursCons(s.queue, id);
    OccursLast(s.wave, s.queue[0], id);
    assert (s'.wave == s.wave + [s.queue[0]] && s'.carry == s.carry)
      || (s'.wave == s.wave && s'.carry == Some(s.queue[0]));
    OccursOne(s.queue[0], id);
  }

  lemma CarryKeepsPlaces(s: State, id: Id)
    requires Enabled(s, TakeCarry)
    ensures Places(Next(s, TakeCarry), id) == Places(s, id)
  {
    hide Occurs;
    OccursOne(0, id);
  }

  lemma HandOverKeepsPlaces(s: State, onLeft: bool, id: Id)
    requires Enabled(s, HandOver(onLeft))
    ensures Places(Next(s, HandOver(onLeft)), id) == Places(s, id)
  {
    hide Occurs, Carried;
    OccursOne(0, id);
  }

  lemma MoveKeepsPlaces(s: State, e: Event, id: Id)
    requires Enabled(s, e) && Moves(e)
    ensures Places(Next(s, e), id) == Places(s, id)
  {
    hide Places, Enabled, Next;
    if e.Enqueue? {
      EnqueueKeepsPlaces(s, e.id, id);
    } else if e.TakeFirst? {
      TakeKeepsPlaces(s, id);
    } else if e.Gather? {
      GatherKeepsPlaces(s, id);
    } else if e.TakeCarry? {
      CarryKeepsPlaces(s, id);
    } else {
      HandOverKeepsPlaces(s, e.onLeft, id);
    }
  }

  lemma AnsweredKeys(s: State, e: Event)
    requires Enabled(s, e) && Answers(e)
    ensures forall id :: id in Next(s, e).results <==> id in s.results || id in Answered(s, e)
    ensures forall id :: id in s.results && id !in Answered(s, e) ==> Next(s, e).results[id] == s.results[id]
  {}

  /** A result channel is written at most once, so no writer ever blocks on it. */
  lemma NeverBlocks(s: State, e: Event)
    requires Inv(s) && Enabled(s, e)
    ensures forall id :: id in Answered(s, e) ==> id !in s.results && Occurs(Answered(s, e), id) == 1
  {
    hide Inv;
    var ids := Answered(s, e);
    forall id | id in ids ensures id !in s.results && Occurs(ids, id) == 1 {
      OnePlace(s, id);
      AnsweredFrom(s, e, id);
    }
  }

  lemma OnePlace(s: State, id: Id)
    requires Inv(s)
    ensures Places(s, id) <= 1
  {}

  lemma AnsweredFrom(s: State, e: Event, id: Id)
    requires Enabled(s, e)
    ensures Occurs(Answered(s, e), id) + (if id in s.results then 1 else 0) <= Places(s, id)
  {
    hide Occurs;
    OccursOne(0, id);
    if s.queue != [] { OccursCons(s.queue, id); }
  }

  /** An answering step takes the answered requests out of one place and changes no other. */
  lemma AnswerMoves(s: State, e: Event, id: Id)
    requires Enabled(s, e) && Answers(e)
    ensures var s', n := Next(s, e), Occurs(Answered(s, e), id);
            (if id in s.offering then 1 else 0) + Occurs(s'.queue, id) + Occurs(Carried(s'.carry), id)
              + Occurs(s'.wave, id)
            + Occurs(s'.left, id) + Occurs(s'.right, id) + n
            == (if id in s.offering then 1 else 0) + Occurs(s.queue, id) + Occurs(Carried(s.carry), id)
              + Occurs(s.wave, id)
            + Occurs(s.left, id) + Occurs(s.right, id)
            && s'.offering == s.offering
  {
    hide Occurs, AnswerAll, Answer;
    OccursOne(0, id);
    if e.Skip? || e.Drain? { OccursCons(s.queue, id); }
  }

  lemma AnswerKeepsPlaces(s: State, e: Event, id: Id)
    requires Inv(s) && Enabled(s, e) && Answers(e)
    ensures Places(Next(s, e), id) == Places(s, id)
  {
    NeverBlocks(s, e);
    AnsweredKeys(s, e);
    AnswerMoves(s, e, id);
    hide Enabled, Next, Inv, Answered;
  }

  // ---- Every step keeps the invariant ----

  lemma MoveKeepsInv(s: State, e: Event)
    requires Inv(s) && Enabled(s, e) && Moves(e)
    ensures Inv(Next(s, e))
  {
    forall id ensures Places(Next(s, e), id) == Places(s, id) { MoveKeepsPlaces(s, e, id); }
    MoveFacts(s, e);
    hide Places, Next, Enabled;
  }

  lemma MoveFacts(s: State, e: Event)
    requires Inv(s) && Enabled(s, e) && Moves(e)
    ensures var s' := Next(s, e);
            && s'.items == s.items && s'.returned == s.returned && s'.results == s.results && s'.touched == s.touched
            && s'.phase == s.phase && s'.offering <= s.offering
            && (forall id :: Awaits(s', id) ==> Awaits(s, id) || Places(s, id) > 0)
            && (s'.phase.Running? || (s'.wave == [] && s'.carry.None? && s'.cancelled))
            && (s'.phase.Done? ==> s'.left == [] && s'.right == [])
  {
    hide Places, Occurs, Carried, Sizes;
    if e.Enqueue? { OfferedPlace(s, e.id); }
  }

  lemma OfferedPlace(s: State, id: Id)
    requires id in s.offering
    ensures Places(s, id) > 0
  {
    hide Occurs;
  }

  lemma SamePlaces(s: State, s': State)
    requires s'.offering == s.offering && s'.queue == s.queue && s'.carry == s.carry && s'.wave == s.wave
    requires s'.left == s.left && s'.right == s.right && s'.results == s.results
    ensures forall id :: Places(s', id) == Places(s, id)
  {
    hide Occurs;
  }

  lemma NotReturned(s: State, e: Event, id: Id)
    requires Inv(s) && Enabled(s, e) && Answers(e) && id in Answered(s, e)
    ensures id !in s.returned && id in s.items
  {
    NeverBlocks(s, e);
    AnsweredFrom(s, e, id);
    hide Places, AnswerAll, Answer, Next;
  }

  lemma AnswerKeepsInv(s: State, e: Event)
    requires Inv(s) && Enabled(s, e) && Answers(e)
    ensures Inv(Next(s, e))
  {
    hide Places, Next, Enabled, Answered, Occurs;
    var s' := Next(s, e);
    forall id ensures Places(s', id) == Places(s, id) { AnswerKeepsPlaces(s, e, id); }
    AnsweredKeys(s, e);
    forall id | id in Answered(s, e) ensures id !in s.returned { NotReturned(s, e, id); }
    NeverBlocks(s, e);
    TouchedRan(s, e);
    SameReturned(s, e);
  }

  lemma TouchedRan(s: State, e: Event)
    requires Enabled(s, e) && Answers(e)
    ensures forall id :: id in Next(s, e).touched ==>
            id in s.touched || (id in Next(s, e).results && Next(s, e).results[id].Ran?)
  {}

  lemma SameReturned(s: State, e: Event)
    requires Inv(s) && Enabled(s, e) && Answers(e)
    ensures var s' := Next(s, e);
            && s'.items == s.items && s'.returned == s.returned && s'.offering == s.offering
            && (s'.phase.Running? || (s'.wave == [] && s'.carry.None? && s'.cancelled))
            && (s'.phase.Done? ==> s'.left == [] && s'.right == [] && s.phase.Done?)
            && (s.phase.Done? ==> s'.phase.Done?)
  {
    hide Places, AnswerAll, Answer;
  }

  lemma SubmitKeepsInv(s: State, id: Id, own: seq<Item>)
    requires Inv(s) && Enabled(s, Submit(id, own))
    ensures Inv(Next(s, Submit(id, own)))
  {
    var s' := Next(s, Submit(id, own));
    forall o ensures Places(s', o) == if o != id then Places(s, o) else 1 {
      assert Places(s, id) == 0;
    }
    hide Places;
  }

  lemma RefuseKeepsInv(s: State, id: Id, shutdown: bool)
    requires Inv(s) && Enabled(s, Refuse(id, shutdown))
    ensures Inv(Next(s, Refuse(id, shutdown)))
  {
    var s' := Next(s, Refuse(id, shutdown));
    OnePlace(s, id);
    forall o ensures Places(s', o) == if o != id then Places(s, o) else 0 {}
    assert id !in s.results;
    hide Places;
  }

  lemma ReturnKeepsInv(s: State, e: Event)
    requires Inv(s) && Enabled(s, e) && (e.Return? || e.ReturnLate?)
    ensures Inv(Next(s, e))
  {
    hide Places, Occurs;
    SamePlaces(s, Next(s, e));
  }

  lemma PhaseKeepsInv(s: State, e: Event)
    requires Inv(s) && Enabled(s, e) && (e.Shutdown? || e.DrainEnd? || e.Finish?)
    ensures Inv(Next(s, e))
  {
    hide Places, Occurs;
    SamePlaces(s, Next(s, e));
  }

  lemma StepKeepsInv(s: State, e: Event)
    requires Inv(s) && Enabled(s, e)
    ensures Inv(Next(s, e))
  {
    hide Inv, Enabled, Next;
    if Moves(e) {
      MoveKeepsInv(s, e);
    } else if Answers(e) {
      AnswerKeepsInv(s, e);
    } else {
      match e
      case Submit(id, own) => SubmitKeepsInv(s, id, own);
      case Refuse(id, shutdown) => RefuseKeepsInv(s, id, shutdown);
      case Return(_) => ReturnKeepsInv(s, e);
      case ReturnLate(_) => ReturnKeepsInv(s, e);
      case Shutdown => PhaseKeepsInv(s, e);
      case DrainEnd => PhaseKeepsInv(s, e);
      case Finish => PhaseKeepsInv(s, e);
    }
  }

  // ---- Waves are bounded ----

  ghost predicate Fits(items: map<Id, seq<Item>>, batchSize: nat, wave: seq<Id>) {
    |wave| <= 32 && (|wave| > 1 ==> Sizes(items, wave) <= batchSize) && forall id :: id in wave ==> id in items
  }

  ghost predicate WavesFit(s: State) {
    Fits(s.items, s.batchSize, s.wave) && Fits(s.items, s.batchSize, s.left) && Fits(s.items, s.batchSize, s.right)
  }

  lemma {:induction false} SizesStay(items: map<Id, seq<Item>>, id: Id, own: seq<Item>, ids: seq<Id>)
    requires id !in items && forall x :: x in ids ==> x in items
    ensures Sizes(items[id := own], ids) == Sizes(items, ids)
  {
    if ids != [] {
      assert ids[|ids| - 1] in ids;
      SizesStay(items, id, own, ids[..|ids| - 1]);
    }
  }

  lemma SubmitKeepsWave(s: State, id: Id, own: seq<Item>, wave: seq<Id>)
    requires id !in s.items && Fits(s.items, s.batchSize, wave)
    ensures Fits(s.items[id := own], s.batchSize, wave)
  {
    SizesStay(s.items, id, own, wave);
  }

  lemma OneRequestFits(s: State, id: Id)
    requires id in s.items
    ensures Fits(s.items, s.batchSize, [id]) && Fits(s.items, s.batchSize, [])
  {}

  lemma GatherFits(s: State)
    requires Enabled(s, Gather) && Fits(s.items, s.batchSize, s.wave) && s.queue[0] in s.items
    ensures Fits(s.items, s.batchSize, Next(s, Gather).wave)
  {
    hide Sizes;
  }

  lemma NoWaveFits(s: State)
    ensures Fits(s.items, s.batchSize, [])
  {}

  lemma TakeKeepsWaves(s: State, e: Event)
    requires Inv(s) && WavesFit(s) && Enabled(s, e) && (e.TakeFirst? || e.TakeCarry? || e.Gather?)
    ensures WavesFit(Next(s, e))
  {
    hide Sizes, Fits, Inv, Places;
    if e.TakeCarry? {
      KnownPlace(s, s.carry.value);
      OneRequestFits(s, s.carry.value);
    } else {
      KnownPlace(s, s.queue[0]);
      OneRequestFits(s, s.queue[0]);
      if e.Gather? { GatherFits(s); }
    }
  }

  lemma OtherKeepsWaves(s: State, e: Event)
    requires WavesFit(s) && Enabled(s, e) && !e.Submit? && !e.TakeFirst? && !e.TakeCarry? && !e.Gather?
    ensures WavesFit(Next(s, e))
  {
    hide Sizes, Fits, Answer, AnswerAll;
    NoWaveFits(s);
  }

  /** No wave with more than one request exceeds the batch size. */
  lemma StepKeepsWaves(s: State, e: Event)
    requires Inv(s) && WavesFit(s) && Enabled(s, e)
    ensures WavesFit(Next(s, e))
  {
    hide Sizes, Fits, Inv, Answer, AnswerAll;
    if e.Submit? {
      SubmitKeepsWave(s, e.id, e.own, s.wave);
      SubmitKeepsWave(s, e.id, e.own, s.left);
      SubmitKeepsWave(s, e.id, e.own, s.right);
    } else {
      hide Enabled, Next, WavesFit;
      if e.TakeFirst? || e.TakeCarry? || e.Gather? { TakeKeepsWaves(s, e); } else { OtherKeepsWaves(s, e); }
    }
  }

  lemma KnownPlace(s: State, id: Id)
    requires Inv(s) && (id in s.queue || s.carry == Some(id))
    ensures id in s.items
  {
    hide Occurs;
    assert Places(s, id) > 0;
  }

  predicate Legal(s: State, events: seq<Event>)
    decreases |events|
  {
    events == [] || (Enabled(s, events[0]) && Legal(Next(s, events[0]), events[1..]))
  }

  function Run(s: State, events: seq<Event>): State
    requires Legal(s, events)
    decreases |events|
  {
    if events == [] then s else Run(Next(s, events[0]), events[1..])
  }

  lemma {:induction false} RunKeepsInv(s: State, events: seq<Event>)
    requires Inv(s) && Legal(s, events)
    ensures Inv(Run(s, events))
    decreases |events|
  {
    hide Inv, Enabled, Next;
    if events != [] {
      StepKeepsInv(s, events[0]);
      RunKeepsInv(Next(s, events[0]), events[1..]);
    }
  }

  lemma {:induction false} RunKeepsWaves(s: State, events: seq<Event>)
    requires Inv(s) && WavesFit(s) && Legal(s, events)
    ensures WavesFit(Run(s, events))
    decreases |events|
  {
    hide Inv, WavesFit, Enabled, Next;
    if events != [] {
      StepKeepsInv(s, events[0]);
      StepKeepsWaves(s, events[0]);
      RunKeepsWaves(Next(s, events[0]), events[1..]);
    }
  }

  /** In every run a wave has at most 32 requests, and one with more than one request at most a batch of items. */
  lemma WavesAlwaysFit(s: State, events: seq<Event>)
    requires Init(s) && Legal(s, events)
    ensures WavesFit(Run(s, events))
  {
    InitInv(s);
    NoWaveFits(s);
    RunKeepsWaves(s, events);
  }

  lemma {:induction false} ReturnedStays(s: State, events: seq<Event>, id: Id)
    requires Inv(s) && Legal(s, events) && id in s.returned
    ensures id in Run(s, events).returned && Run(s, events).returned[id] == s.returned[id]
    decreases |events|
  {
    if events != [] {
      StepKeepsInv(s, events[0]);
      ReturnedOnce(s, events[0], id);
      hide Inv, Enabled, Next;
      ReturnedStays(Next(s, events[0]), events[1..], id);
    }
  }

  /** A submit returns once: no later step changes its outcome. */
  lemma ReturnedOnce(s: State, e: Event, id: Id)
    requires Inv(s) && Enabled(s, e) && id in s.returned
    ensures id in Next(s, e).returned && Next(s, e).returned[id] == s.returned[id]
  {
    hide Places, AnswerAll, Answer, Recorded, Active, Sizes;
  }

  /** Cancelled by shutdown means the items never reached the database worker, then or later. */
  lemma CancelledWasNeverTouched(s: State, before: seq<Event>, after: seq<Event>, id: Id)
    requires Init(s) && Legal(s, before) && Legal(Run(s, before), after)
    requires id in Run(s, before).returned && Run(s, before).returned[id] == Cancelled
    ensures id !in Run(s, before).touched && id !in Run(Run(s, before), after).touched
  {
    InitInv(s);
    RunKeepsInv(s, before);
    RunKeepsInv(Run(s, before), after);
    ReturnedStays(Run(s, before), after, id);
    TouchedIsNotCancelled(Run(s, before), id);
    TouchedIsNotCancelled(Run(Run(s, before), after), id);
  }

  lemma InitInv(s: State)
    requires Init(s)
    ensures Inv(s)
  {}

  lemma TouchedIsNotCancelled(s: State, id: Id)
    requires Inv(s) && id in s.returned && s.returned[id] == Cancelled
    ensures id !in s.touched
  {
    hide Places;
  }
}
