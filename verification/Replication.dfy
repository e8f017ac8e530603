/**
  Replication from one primary to one replica: a durable outbox, a delivery path with retries, and
  executions on the replica that hold striped locks from the receipt check to the commit.
  */
module Replication {
  import opened Sequences

  type Op = nat   // position in the order in which the primary put operations into the outbox

  /** What the protocol sees of an operation: its metric and the lock stripes of its keys and its receipt. */
  datatype Entry = Entry(metric: nat, stripes: set<nat>)

  /** Where an execution is within the atomic batch of its next `unit` operations. */
  datatype Phase = Idle | Locking(unit: nat) | Checked(unit: nat, unseen: set<Op>) | Releasing

  /** One execution of a sent frame on the replica; a retry starts another one beside it. */
  datatype Session = Session(rest: seq<Op>, frame: nat, phase: Phase, held: set<nat>)

  datatype State = State(
    log: seq<Entry>,                     // every operation put into the outbox
    outbox: set<Op>,
    up: bool, stopping: bool, halted: bool,
    waiting: set<Op>,                    // persisted, on its way through the fan-out queues
    queue: seq<Op>, batch: seq<Op>,      // the replica's queue and the frame being sent
    frame: nat,                          // number of the frame being sent
    sessions: map<nat, Session>,
    receipts: set<Op>, effects: seq<Op>) // on the replica

  /**
    Whether dropping a record during shutdown keeps later records from being sent, and whether an
    execution checks receipts only with all stripes of its operations locked.
    */
  datatype Policy = Policy(afterSend: bool, afterDrop: bool, locks: bool)

  /** The program as it is. */
  const CODE := Policy(false, false, true)

  datatype Event =
    | Put(entry: Entry) | Enqueue(op: Op) | Take(count: nat) | Send(id: nat) | Ack(id: nat, deleted: set<Op>)
    | Stop | GiveUp | Drop(op: Op)
    | Begin(id: nat, unit: nat) | Acquire(id: nat, stripe: nat) | Check(id: nat) | Commit(id: nat)
    | Release(id: nat, stripe: nat) | Abort(id: nat)
    | Crash(undeleted: set<Op>) | Recover(order: seq<Op>)

  predicate Before(s: State, x: Op, y: Op) { x < y < |s.log| && s.log[x].metric == s.log[y].metric }

  predicate Sorted(ops: seq<Op>) { forall i, j :: 0 <= i < j < |ops| ==> ops[i] < ops[j] }

  function Members(ops: seq<Op>): set<Op> { set x | x in ops }

  /** The operations of the atomic batch a session works on, and those after it. */
  function Unit(t: Session): (unit: seq<Op>)
    ensures forall x :: x in unit ==> x in t.rest
  {
    if t.phase.Idle? || t.phase.Releasing? then []
    else if t.phase.unit <= |t.rest| then t.rest[..t.phase.unit] else t.rest
  }

  function After(t: Session): (after: seq<Op>)
    ensures t.rest == Unit(t) + after
  {
    t.rest[|Unit(t)|..]
  }

  /** All stripes the operations need. */
  function Stripes(log: seq<Entry>, ops: seq<Op>): set<nat> {
    set x, l | x in ops && x < |log| && l in log[x].stripes :: l
  }

  function Missing(log: seq<Entry>, t: Session): set<nat> { Stripes(log, Unit(t)) - t.held }

  /** The operations whose effects a commit adds: those without a receipt, each once. */
  function Applied(ops: seq<Op>, unseen: set<Op>): seq<Op> {
    if ops == [] then []
    else if ops[0] in unseen then [ops[0]] + Applied(ops[1..], unseen - {ops[0]})
    else Applied(ops[1..], unseen)
  }

  predicate Enabled(s: State, e: Event, p: Policy) {
    match e
    case Put(entry) => s.up && entry.stripes != {}
    // mutations of one metric, and the fan-out queue they share, keep their order
    case Enqueue(op) => s.up && !s.halted && op in s.waiting && forall y :: y in s.waiting ==> !Before(s, y, op)
    case Take(count) => s.up && !s.halted && s.batch == [] && 0 < count <= |s.queue|
    case Send(id) => s.up && !s.halted && s.batch != [] && id !in s.sessions
    case Ack(id, deleted) => s.up && s.batch != [] && id in s.sessions
      && s.sessions[id] == Session([], s.frame, Idle, {})
    case Stop => s.up
    case GiveUp => s.up && s.stopping && s.batch != []
    case Drop(op) => s.up && s.stopping && op in s.waiting
    case Begin(id, unit) => id in s.sessions && s.sessions[id].phase.Idle? && 0 < unit <= |s.sessions[id].rest|
    // stripes are locked in ascending order, each when no other session holds it
    case Acquire(id, stripe) =>
      && p.locks && id in s.sessions && s.sessions[id].phase.Locking?
      && IsLeastNat(stripe, Missing(s.log, s.sessions[id]))
      && forall o :: o in s.sessions ==> stripe !in s.sessions[o].held
    case Check(id) =>
      id in s.sessions && s.sessions[id].phase.Locking? && (p.locks ==> Missing(s.log, s.sessions[id]) == {})
    case Commit(id) => id in s.sessions && s.sessions[id].phase.Checked?
    case Release(id, stripe) => id in s.sessions && s.sessions[id].phase.Releasing? && stripe in s.sessions[id].held
    case Abort(id) => id in s.sessions
    case Crash(undeleted) => undeleted <= s.receipts && forall x :: x in undeleted ==> x < |s.log|
    case Recover(order) => !s.up && Sorted(order) && Members(order) == s.outbox
  }

  /** A session without one of its stripes, or finished with its batch when none is left. */
  function Unlocked(t: Session, held: set<nat>): Session {
    t.(phase := if held == {} then Idle else Releasing, held := held)
  }

  function Next(s: State, e: Event, p: Policy): State
    requires Enabled(s, e, p)
  {
    match e
    case Put(entry) =>
      s.(log := s.log + [entry], outbox := s.outbox + {|s.log|}, waiting := s.waiting + {|s.log|})
    case Enqueue(op) => s.(waiting := s.waiting - {op}, queue := s.queue + [op])
    case Take(count) => s.(batch := s.queue[..count], queue := s.queue[count..], frame := s.frame + 1)
    case Send(id) => s.(sessions := s.sessions[id := Session(s.batch, s.frame, Idle, {})])
    case Ack(id, deleted) =>
      s.(outbox := s.outbox - (Members(s.batch) * deleted), batch := [], sessions := s.sessions - {id},
        frame := s.frame + 1)
    case Stop => s.(stopping := true)
    case GiveUp => s.(batch := [], halted := s.halted || p.afterSend, frame := s.frame + 1)
    case Drop(op) => s.(waiting := s.waiting - {op}, halted := s.halted || p.afterDrop)
    case Begin(id, unit) => s.(sessions := s.sessions[id := s.sessions[id].(phase := Locking(unit))])
    case Acquire(id, stripe) =>
      s.(sessions := s.sessions[id := s.sessions[id].(held := s.sessions[id].held + {stripe})])
    case Check(id) =>
      var t := s.sessions[id];
      s.(sessions := s.sessions[id := t.(phase := Checked(t.phase.unit, Members(Unit(t)) - s.receipts))])
    case Commit(id) =>
      var t := s.sessions[id];
      s.(sessions := s.sessions[id := Unlocked(t.(rest := After(t)), t.held)],
      receipts := s.receipts + Members(Unit(t)), effects := s.effects + Applied(Unit(t), t.phase.unseen))
    case Release(id, stripe) =>
      s.(sessions := s.sessions[id := Unlocked(s.sessions[id], s.sessions[id].held - {stripe})])
    case Abort(id) => s.(sessions := s.sessions - {id})
    case Crash(undeleted) =>
      s.(up := false, stopping := false, halted := false, waiting := {}, queue := [], batch := [],
      frame := s.frame + 1, outbox := s.outbox + undeleted)
    case Recover(order) => s.(up := true, queue := order)
  }

  predicate Init(s: State) {
    && s.log == [] && s.outbox == {} && !s.up && !s.stopping && !s.halted && s.waiting == {} && s.queue == []
       && s.batch == []
    && s.sessions == map[] && s.receipts == {} && s.effects == []
  }

  predicate Legal(s: State, events: seq<Event>, p: Policy)
    decreases |events|
  {
    events == [] || (Enabled(s, events[0], p) && Legal(Next(s, events[0], p), events[1..], p))
  }

  function Run(s: State, events: seq<Event>, p: Policy): State
    requires Legal(s, events, p)
    decreases |events|
  {
    if events == [] then s else Run(Next(s, events[0], p), events[1..], p)
  }

  lemma {:induction false} Append(s: State, a: seq<Event>, b: seq<Event>, p: Policy)
    requires Legal(s, a, p) && Legal(Run(s, a, p), b, p)
    ensures Legal(s, a + b, p) && Run(s, a + b, p) == Run(Run(s, a, p), b, p)
    decreases |a|
  {
    hide Enabled, Next;
    if a == [] {
      assert a + b == b;
    } else {
      assert (a + b)[1..] == a[1..] + b;
      Append(Next(s, a[0], p), a[1..], b, p);
    }
  }

  lemma OneStep(s: State, e: Event, p: Policy)
    requires Enabled(s, e, p)
    ensures Legal(s, [e], p) && Run(s, [e], p) == Next(s, e, p)
  {
    hide Enabled, Next;
    assert [e][1..] == [];
    NoStep(Next(s, e, p), p);
  }

  lemma NoStep(s: State, p: Policy)
    ensures Legal(s, [], p) && Run(s, [], p) == s
  {}

  lemma Extend(s: State, done: seq<Event>, e: Event, p: Policy)
    requires Legal(s, done, p) && Enabled(Run(s, done, p), e, p)
    ensures Legal(s, done + [e], p) && Run(s, done + [e], p) == Next(Run(s, done, p), e, p)
  {
    hide Enabled, Next, Legal, Run;
    OneStep(Run(s, done, p), e, p);
    Append(s, done, [e], p);
  }

  // ---- Who holds which stripe ----

  /** What a session's phase says about its stripes and about the receipts it has seen. */
  ghost predicate SessionLocks(log: seq<Entry>, receipts: set<Op>, t: Session) {
    && (forall x :: x in t.rest ==> x < |log|)
    && match t.phase
       case Idle => t.held == {}
       case Locking(unit) =>
         && 0 < unit <= |t.rest| && t.held <= Stripes(log, Unit(t))
         && forall l, m :: l in t.held && m in Missing(log, t) ==> l < m
       case Checked(unit, unseen) =>
         unit <= |t.rest| && t.held == Stripes(log, Unit(t)) && unseen == Members(Unit(t)) - receipts
       case Releasing => t.held != {}
  }

  ghost predicate Exclusive(sessions: map<nat, Session>) {
    forall a, b :: a in sessions && b in sessions && a != b ==> sessions[a].held !! sessions[b].held
  }

  ghost predicate InLog(s: State) {
    && (forall x :: x in s.batch || x in s.queue || x in s.waiting || x in s.outbox ==> x < |s.log|)
    && (forall e :: e in s.log ==> e.stripes != {})
  }

  ghost predicate LockInv(s: State) {
    && InLog(s) && Exclusive(s.sessions)
    && (forall id :: id in s.sessions ==> SessionLocks(s.log, s.receipts, s.sessions[id]))
  }

  lemma StripesStay(log: seq<Entry>, log': seq<Entry>, ops: seq<Op>)
    requires log <= log' && forall x :: x in ops ==> x < |log|
    ensures Stripes(log, ops) == Stripes(log', ops)
  {}

  lemma InStripes(log: seq<Entry>, ops: seq<Op>, x: Op, l: nat)
    requires x in ops && x < |log| && l in log[x].stripes
    ensures l in Stripes(log, ops)
  {}

  lemma LocksStay(log: seq<Entry>, log': seq<Entry>, receipts: set<Op>, t: Session)
    requires SessionLocks(log, receipts, t) && log <= log'
    ensures SessionLocks(log', receipts, t)
  {
    hide Stripes;
    StripesStay(log, log', Unit(t));
    assert Missing(log, t) == Missing(log', t);
  }

  /** Two sessions past their checks work on different operations: a shared one would share its stripes. */
  lemma UnitsDisjoint(s: State, a: nat, b: nat)
    requires LockInv(s) && a in s.sessions && b in s.sessions && a != b
    requires s.sessions[a].phase.Checked? && s.sessions[b].phase.Checked?
    ensures Members(Unit(s.sessions[a])) !! Members(Unit(s.sessions[b]))
  {
    hide Stripes, Unit;
    var t, u := s.sessions[a], s.sessions[b];
    assert SessionLocks(s.log, s.receipts, t) && SessionLocks(s.log, s.receipts, u);
    forall x | x in Members(Unit(t)) ensures x !in Members(Unit(u)) {
      assert x in t.rest && s.log[x] in s.log;
      var l :| l in s.log[x].stripes;
      InStripes(s.log, Unit(t), x, l);
      if x in Members(Unit(u)) { InStripes(s.log, Unit(u), x, l); }
    }
  }

  /** One session moves on and the others do not notice. */
  lemma OneSession(s: State, s': State, id: nat, t: Session)
    requires LockInv(s) && InLog(s') && s'.log == s.log && s'.receipts == s.receipts
    requires s'.sessions == s.sessions[id := t] && SessionLocks(s.log, s.receipts, t)
    requires forall o :: o in s.sessions && o != id ==> s.sessions[o].held !! t.held
    ensures LockInv(s')
  {
    hide SessionLocks, InLog;
  }

  lemma BeginKeepsLocks(s: State, id: nat, unit: nat, p: Policy)
    requires LockInv(s) && Enabled(s, Begin(id, unit), p)
    ensures LockInv(Next(s, Begin(id, unit), p))
  {
    hide Stripes;
    OneSession(s, Next(s, Begin(id, unit), p), id, s.sessions[id].(phase := Locking(unit)));
  }

  lemma AcquireKeepsLocks(s: State, id: nat, stripe: nat, p: Policy)
    requires LockInv(s) && Enabled(s, Acquire(id, stripe), p)
    ensures LockInv(Next(s, Acquire(id, stripe), p))
  {
    hide Stripes;
    var t := s.sessions[id];
    assert SessionLocks(s.log, s.receipts, t);
    var t' := t.(held := t.held + {stripe});
    assert Unit(t') == Unit(t) && Missing(s.log, t') == Missing(s.log, t) - {stripe};
    OneSession(s, Next(s, Acquire(id, stripe), p), id, t');
  }

  lemma CheckKeepsLocks(s: State, id: nat, p: Policy)
    requires p.locks && LockInv(s) && Enabled(s, Check(id), p)
    ensures LockInv(Next(s, Check(id), p))
  {
    hide Stripes;
    var t := s.sessions[id];
    assert SessionLocks(s.log, s.receipts, t);
    var t' := t.(phase := Checked(t.phase.unit, Members(Unit(t)) - s.receipts));
    assert Unit(t') == Unit(t) && Stripes(s.log, Unit(t)) == Missing(s.log, t) + t.held;
    OneSession(s, Next(s, Check(id), p), id, t');
  }

  lemma UnlockedLocks(log: seq<Entry>, receipts: set<Op>, t: Session, held: set<nat>)
    requires forall x :: x in t.rest ==> x < |log|
    ensures SessionLocks(log, receipts, Unlocked(t, held))
  {}

  lemma ReleaseKeepsLocks(s: State, id: nat, stripe: nat, p: Policy)
    requires LockInv(s) && Enabled(s, Release(id, stripe), p)
    ensures LockInv(Next(s, Release(id, stripe), p))
  {
    hide Stripes;
    var t := s.sessions[id];
    var held := t.held - {stripe};
    UnlockedLocks(s.log, s.receipts, t, held);
    OneSession(s, Next(s, Release(id, stripe), p), id, Unlocked(t, held));
  }

  lemma MoreReceipts(log: seq<Entry>, receipts: set<Op>, added: set<Op>, t: Session)
    requires SessionLocks(log, receipts, t) && (t.phase.Checked? ==> Members(Unit(t)) !! added)
    ensures SessionLocks(log, receipts + added, t)
  {
    hide Stripes;
  }

  lemma CommitKeepsLocks(s: State, id: nat, p: Policy)
    requires LockInv(s) && Enabled(s, Commit(id), p)
    ensures LockInv(Next(s, Commit(id), p))
  {
    var s', t := Next(s, Commit(id), p), s.sessions[id];
    assert SessionLocks(s.log, s.receipts, t);
    UnlockedLocks(s.log, s'.receipts, t.(rest := After(t)), t.held);
    hide SessionLocks, Unit, After, Applied;
    forall o | o in s'.sessions ensures SessionLocks(s'.log, s'.receipts, s'.sessions[o]) {
      if o != id {
        if s.sessions[o].phase.Checked? { UnitsDisjoint(s, id, o); }
        MoreReceipts(s.log, s.receipts, Members(Unit(t)), s.sessions[o]);
      }
    }
  }

  predicate Executes(e: Event) { e.Begin? || e.Acquire? || e.Check? || e.Commit? || e.Release? }

  lemma PutKeepsLocks(s: State, entry: Entry, p: Policy)
    requires LockInv(s) && Enabled(s, Put(entry), p)
    ensures LockInv(Next(s, Put(entry), p))
  {
    var s' := Next(s, Put(entry), p);
    hide SessionLocks;
    forall id | id in s'.sessions ensures SessionLocks(s'.log, s'.receipts, s'.sessions[id]) {
      LocksStay(s.log, s'.log, s.receipts, s.sessions[id]);
    }
  }

  lemma SendKeepsLocks(s: State, id: nat, p: Policy)
    requires LockInv(s) && Enabled(s, Send(id), p)
    ensures LockInv(Next(s, Send(id), p))
  {
    hide Stripes;
    OneSession(s, Next(s, Send(id), p), id, Session(s.batch, s.frame, Idle, {}));
  }

  lemma OtherKeepsLocks(s: State, e: Event, p: Policy)
    requires LockInv(s) && Enabled(s, e, p) && !Executes(e) && !e.Put? && !e.Send? && !e.Recover?
    ensures LockInv(Next(s, e, p))
  {
    hide SessionLocks;
  }

  lemma RecoverKeepsLocks(s: State, order: seq<Op>, p: Policy)
    requires LockInv(s) && Enabled(s, Recover(order), p)
    ensures LockInv(Next(s, Recover(order), p))
  {
    hide SessionLocks;
    assert forall x :: x in order ==> x in Members(order);
  }

  lemma StepKeepsLocks(s: State, e: Event, p: Policy)
    requires p.locks && LockInv(s) && Enabled(s, e, p)
    ensures LockInv(Next(s, e, p))
  {
    hide LockInv, Enabled, Next;
    match e
    case Put(entry) => PutKeepsLocks(s, entry, p);
    case Send(id) => SendKeepsLocks(s, id, p);
    case Begin(id, unit) => BeginKeepsLocks(s, id, unit, p);
    case Acquire(id, stripe) => AcquireKeepsLocks(s, id, stripe, p);
    case Check(id) => CheckKeepsLocks(s, id, p);
    case Commit(id) => CommitKeepsLocks(s, id, p);
    case Release(id, stripe) => ReleaseKeepsLocks(s, id, stripe, p);
    case Recover(order) => RecoverKeepsLocks(s, order, p);
    case _ => OtherKeepsLocks(s, e, p);
  }

  // ---- At most once, exactly because of the locks ----

  ghost predicate Once(effects: seq<Op>) { forall i, j :: 0 <= i < j < |effects| ==> effects[i] != effects[j] }

  ghost predicate OnceInv(s: State) {
    && LockInv(s) && Once(s.effects)
    && (forall x :: x in s.effects <==> x in s.receipts)
  }

  lemma {:induction false} AppliedMembers(ops: seq<Op>, unseen: set<Op>)
    ensures Once(Applied(ops, unseen)) && forall x :: x in Applied(ops, unseen) <==> x in ops && x in unseen
  {
    if ops != [] {
      assert ops == [ops[0]] + ops[1..];
      AppliedMembers(ops[1..], unseen - {ops[0]});
      AppliedMembers(ops[1..], unseen);
    }
  }

  lemma CommitKeepsOnce(s: State, id: nat, p: Policy)
    requires OnceInv(s) && Enabled(s, Commit(id), p)
    ensures Once(Next(s, Commit(id), p).effects)
    ensures forall x :: x in Next(s, Commit(id), p).effects <==> x in Next(s, Commit(id), p).receipts
  {
    hide Applied, After, Stripes;
    var t := s.sessions[id];
    assert SessionLocks(s.log, s.receipts, t);
    AppliedMembers(Unit(t), t.phase.unseen);
    OnceJoined(s.effects, Applied(Unit(t), t.phase.unseen));
  }

  lemma OnceJoined(a: seq<Op>, b: seq<Op>)
    requires Once(a) && Once(b) && forall x :: x in a ==> x !in b
    ensures Once(a + b)
  {
    forall i, j | 0 <= i < j < |a + b| ensures (a + b)[i] != (a + b)[j] {
      if i < |a| <= j { assert a[i] in a && b[j - |a|] in b; }
    }
  }

  lemma StepKeepsOnce(s: State, e: Event, p: Policy)
    requires p.locks && OnceInv(s) && Enabled(s, e, p)
    ensures OnceInv(Next(s, e, p))
  {
    hide LockInv;
    StepKeepsLocks(s, e, p);
    if e.Commit? { CommitKeepsOnce(s, e.id, p); }
  }

  lemma {:induction false} RunKeepsOnce(s: State, events: seq<Event>, p: Policy)
    requires p.locks && OnceInv(s) && Legal(s, events, p)
    ensures OnceInv(Run(s, events, p))
    decreases |events|
  {
    hide OnceInv, Enabled, Next;
    if events != [] {
      StepKeepsOnce(s, events[0], p);
      RunKeepsOnce(Next(s, events[0], p), events[1..], p);
    }
  }

  lemma InitOnce(s: State)
    requires Init(s)
    ensures OnceInv(s)
  {}

  /** Lost replies, retries, overlapping executions, crashes and recovery never repeat an effect. */
  lemma EffectAtMostOnce(s: State, events: seq<Event>, p: Policy)
    requires p.locks && Init(s) && Legal(s, events, p)
    ensures Once(Run(s, events, p).effects)
  {
    hide Init;
    InitOnce(s);
    RunKeepsOnce(s, events, p);
  }

  ghost predicate AlwaysOnce(p: Policy) {
    forall s, events :: Init(s) && Legal(s, events, p) ==> Once(Run(s, events, p).effects)
  }

  const EMPTY := State([], {}, false, false, false, {}, [], [], 0, map[], {}, [])

  /** One operation, sent twice. */
  function SentTwice(): State {
    var t := Session([0], 1, Idle, {});
    EMPTY.(log := [Entry(7, {0})], outbox := {0}, up := true, batch := [0], frame := 1, sessions := map[0 := t, 1 := t])
  }

  lemma Queued(p: Policy) returns (events: seq<Event>)
    ensures Legal(EMPTY, events, p)
    ensures Run(EMPTY, events, p) == EMPTY.(log := [Entry(7, {0})], outbox := {0}, up := true, queue := [0])
  {
    hide Legal, Run;
    events := [];
    NoStep(EMPTY, p);
    Extend(EMPTY, events, Recover([]), p);
    events := events + [Recover([])];
    Extend(EMPTY, events, Put(Entry(7, {0})), p);
    events := events + [Put(Entry(7, {0}))];
    Extend(EMPTY, events, Enqueue(0), p);
    events := events + [Enqueue(0)];
  }

  lemma SentTwiceRun(p: Policy) returns (events: seq<Event>)
    ensures Legal(EMPTY, events, p) && Run(EMPTY, events, p) == SentTwice()
  {
    hide Legal, Run;
    events := Queued(p);
    Extend(EMPTY, events, Take(1), p);
    events := events + [Take(1)];
    assert [0][..1] == [0] && [0][1..] == [];
    Extend(EMPTY, events, Send(0), p);
    events := events + [Send(0)];
    Extend(EMPTY, events, Send(1), p);
    events := events + [Send(1)];
  }

  lemma CheckOne(s: State, done: seq<Event>, id: nat, p: Policy) returns (events: seq<Event>)
    requires !p.locks && Legal(s, done, p)
    requires var t := Run(s, done, p);
             id in t.sessions && t.sessions[id] == Session([0], 1, Idle, {}) && t.receipts == {}
    ensures Legal(s, events, p)
    ensures var t := Run(s, done, p);
            Run(s, events, p) == t.(sessions := t.sessions[id := Session([0], 1, Checked(1, {0}), {})])
  {
    hide Legal, Run;
    Extend(s, done, Begin(id, 1), p);
    events := done + [Begin(id, 1)];
    assert Unit(Session([0], 1, Locking(1), {})) == [0] && Members([0]) - {} == {0};
    Extend(s, events, Check(id), p);
    events := events + [Check(id)];
  }

  lemma CommitOne(s: State, done: seq<Event>, id: nat, p: Policy) returns (events: seq<Event>)
    requires Legal(s, done, p)
    requires var t := Run(s, done, p); id in t.sessions && t.sessions[id] == Session([0], 1, Checked(1, {0}), {})
    ensures Legal(s, events, p)
    ensures var t, t' := Run(s, done, p), Run(s, events, p);
            t'.effects == t.effects + [0] && forall o :: o in t.sessions && o != id ==>
              o in t'.sessions && t'.sessions[o] == t.sessions[o]
  {
    hide Legal, Run;
    assert Unit(Session([0], 1, Checked(1, {0}), {})) == [0] && Applied([0], {0}) == [0] + Applied([], {});
    Extend(s, done, Commit(id), p);
    events := done + [Commit(id)];
  }

  /** Without the locks both executions find no receipt, and both commit. */
  lemma UnlockedRepeats(p: Policy)
    requires !p.locks
    ensures !AlwaysOnce(p)
  {
    var events := SentTwiceRun(p);
    events := CheckOne(EMPTY, events, 0, p);
    events := CheckOne(EMPTY, events, 1, p);
    BothCommit(p, events);
  }

  lemma BothCommit(p: Policy, events: seq<Event>)
    requires Legal(EMPTY, events, p) && Run(EMPTY, events, p).effects == []
    requires forall id :: id in {0, 1} ==>
               id in Run(EMPTY, events, p).sessions
               && Run(EMPTY, events, p).sessions[id] == Session([0], 1, Checked(1, {0}), {})
    ensures !AlwaysOnce(p)
  {
    hide Legal, Run;
    var done := CommitOne(EMPTY, events, 0, p);
    done := CommitOne(EMPTY, done, 1, p);
    var effects := Run(EMPTY, done, p).effects;
    assert effects == [0] + [0] && effects[0] == effects[1];
    assert Init(EMPTY);
  }

  /** Overlapping executions repeat no effect if and only if receipts are checked under the locks. */
  lemma OnceExactlyIfLocked(p: Policy)
    ensures AlwaysOnce(p) <==> p.locks
  {
    hide Init, Legal, Run;
    if p.locks {
      forall s, events | Init(s) && Legal(s, events, p) ensures Once(Run(s, events, p).effects) {
        EffectAtMostOnce(s, events, p);
      }
    } else {
      UnlockedRepeats(p);
    }
  }

  // ---- No deadlock ----

  predicate Busy(t: Session) { t.rest != [] || !t.phase.Idle? }

  function AllHeld(sessions: map<nat, Session>): set<nat> {
    set id, l | id in sessions && l in sessions[id].held :: l
  }

  /** Some execution can take its next step. */
  ghost predicate CanExecute(s: State, p: Policy) { exists e :: Executes(e) && Enabled(s, e, p) }

  lemma Does(s: State, p: Policy, e: Event)
    requires Executes(e) && Enabled(s, e, p)
    ensures CanExecute(s, p)
  {}

  /** Only a session that still misses a stripe has to wait. */
  lemma MovesUnlessMissing(s: State, id: nat, p: Policy)
    requires LockInv(s) && id in s.sessions && Busy(s.sessions[id])
    requires s.sessions[id].phase.Locking? ==> Missing(s.log, s.sessions[id]) == {}
    ensures CanExecute(s, p)
  {
    hide Stripes, CanExecute;
    var t := s.sessions[id];
    match t.phase
    case Idle => Does(s, p, Begin(id, 1));
    case Locking(_) => Does(s, p, Check(id));
    case Checked(_, _) => Does(s, p, Commit(id));
    case Releasing => var l :| l in t.held; Does(s, p, Release(id, l));
  }

  /** A session whose next stripe lies above every held stripe can lock it. */
  lemma HighestMoves(s: State, id: nat, p: Policy)
    requires p.locks && LockInv(s) && id in s.sessions && s.sessions[id].phase.Locking?
    requires Missing(s.log, s.sessions[id]) != {}
    requires AllHeld(s.sessions) == {}
             || exists l :: l in s.sessions[id].held && forall m :: m in AllHeld(s.sessions) ==> m <= l
    ensures CanExecute(s, p)
  {
    hide Stripes, CanExecute;
    var t := s.sessions[id];
    assert SessionLocks(s.log, s.receipts, t);
    var missing := Missing(s.log, t);
    var next := LeastNat(missing);
    assert next !in AllHeld(s.sessions);
    Does(s, p, Acquire(id, next));
  }

  /** Ascending locking cannot deadlock: while any execution is unfinished, some execution can go on. */
  lemma SomeSessionMoves(s: State, id: nat, p: Policy)
    requires p.locks && LockInv(s) && id in s.sessions && Busy(s.sessions[id])
    ensures CanExecute(s, p)
  {
    hide CanExecute, Missing;
    var all := SortedSet(AllHeld(s.sessions));
    var first := id;
    if all != [] {
      var top := all[|all| - 1];
      assert top in AllHeld(s.sessions);
      first :| first in s.sessions && top in s.sessions[first].held;
      forall m | m in AllHeld(s.sessions) ensures m <= top { assert m in all; }
      assert SessionLocks(s.log, s.receipts, s.sessions[first]);
    }
    if s.sessions[first].phase.Locking? && Missing(s.log, s.sessions[first]) != {} {
      HighestMoves(s, first, p);
    } else {
      MovesUnlessMissing(s, first, p);
    }
  }

  lemma NeverDeadlocks(s: State, events: seq<Event>, p: Policy, id: nat)
    requires p.locks && Init(s) && Legal(s, events, p)
    requires id in Run(s, events, p).sessions && Busy(Run(s, events, p).sessions[id])
    ensures CanExecute(Run(s, events, p), p)
  {
    hide Init, CanExecute;
    InitOnce(s);
    RunKeepsOnce(s, events, p);
    SomeSessionMoves(Run(s, events, p), id, p);
  }

  // ---- Nothing is lost, under every policy ----

  /** A session of the frame being sent has applied what it no longer has to do. */
  ghost predicate Accounts(t: Session, frame: nat, batch: seq<Op>, receipts: set<Op>) {
    t.frame <= frame && (t.frame == frame ==> forall x :: x in batch ==> x in receipts || x in t.rest)
  }

  /** What a session has found to have a receipt has one. */
  ghost predicate SawReceipts(t: Session, receipts: set<Op>) {
    t.phase.Checked? ==> forall x :: x in Unit(t) ==> x in receipts || x in t.phase.unseen
  }

  ghost predicate HeldInv(s: State) {
    && (forall x :: 0 <= x < |s.log| ==> x in s.outbox || x in s.receipts)
    && (forall x :: x in s.receipts ==> x in s.effects)
    && (forall id :: id in s.sessions ==> Accounts(s.sessions[id], s.frame, s.batch, s.receipts))
    && (forall id :: id in s.sessions ==> SawReceipts(s.sessions[id], s.receipts))
  }

  lemma CommitKeepsHeld(s: State, id: nat, p: Policy)
    requires HeldInv(s) && Enabled(s, Commit(id), p)
    ensures HeldInv(Next(s, Commit(id), p))
  {
    hide Accounts, SawReceipts, Applied, Unit, After;
    var s', t := Next(s, Commit(id), p), s.sessions[id];
    AppliedMembers(Unit(t), t.phase.unseen);
    Saw(t, s.receipts);
    assert forall x :: x in s'.receipts ==> x in s'.effects;
    forall o | o in s'.sessions
      ensures Accounts(s'.sessions[o], s'.frame, s'.batch, s'.receipts) && SawReceipts(s'.sessions[o], s'.receipts)
    {
      MoreSeen(s.sessions[o], s.frame, s.batch, s.receipts, Members(Unit(t)));
      if o == id { UnitDone(t, t.held, s.frame, s.batch, s.receipts); }
    }
  }

  lemma Saw(t: Session, receipts: set<Op>)
    requires SawReceipts(t, receipts) && t.phase.Checked?
    ensures forall x :: x in Unit(t) ==> x in receipts || x in t.phase.unseen
  {}

  lemma MoreSeen(t: Session, frame: nat, batch: seq<Op>, receipts: set<Op>, added: set<Op>)
    requires Accounts(t, frame, batch, receipts) && SawReceipts(t, receipts)
    ensures Accounts(t, frame, batch, receipts + added) && SawReceipts(t, receipts + added)
  {
    hide Unit;
  }

  lemma UnitDone(t: Session, held: set<nat>, frame: nat, batch: seq<Op>, receipts: set<Op>)
    requires Accounts(t, frame, batch, receipts)
    ensures Accounts(Unlocked(t.(rest := After(t)), held), frame, batch, receipts + Members(Unit(t)))
    ensures SawReceipts(Unlocked(t.(rest := After(t)), held), receipts + Members(Unit(t)))
  {
    assert t.rest == Unit(t) + After(t);
    hide Unit, After;
  }

  lemma AckKeepsHeld(s: State, id: nat, deleted: set<Op>, p: Policy)
    requires HeldInv(s) && Enabled(s, Ack(id, deleted), p)
    ensures HeldInv(Next(s, Ack(id, deleted), p))
  {
    assert Accounts(s.sessions[id], s.frame, s.batch, s.receipts);
    hide SawReceipts, Unit;
  }

  lemma OtherKeepsHeld(s: State, e: Event, p: Policy)
    requires HeldInv(s) && Enabled(s, e, p) && !e.Ack? && !e.Commit? && !e.Check?
    ensures HeldInv(Next(s, e, p))
  {
    hide Stripes, Missing;
  }

  lemma CheckKeepsHeld(s: State, id: nat, p: Policy)
    requires HeldInv(s) && Enabled(s, Check(id), p)
    ensures HeldInv(Next(s, Check(id), p))
  {
    hide Missing, Stripes;
  }

  lemma StepKeepsHeld(s: State, e: Event, p: Policy)
    requires HeldInv(s) && Enabled(s, e, p)
    ensures HeldInv(Next(s, e, p))
  {
    hide HeldInv, Enabled, Next;
    match e
    case Commit(id) => CommitKeepsHeld(s, id, p);
    case Check(id) => CheckKeepsHeld(s, id, p);
    case Ack(id, deleted) => AckKeepsHeld(s, id, deleted, p);
    case _ => OtherKeepsHeld(s, e, p);
  }

  lemma {:induction false} RunKeepsHeld(s: State, events: seq<Event>, p: Policy)
    requires HeldInv(s) && Legal(s, events, p)
    ensures HeldInv(Run(s, events, p))
    decreases |events|
  {
    hide HeldInv, Enabled, Next;
    if events != [] {
      StepKeepsHeld(s, events[0], p);
      RunKeepsHeld(Next(s, events[0], p), events[1..], p);
    }
  }

  /** An operation leaves the outbox only after it took effect on the replica. */
  lemma HeldUntilApplied(s: State, events: seq<Event>, p: Policy, x: Op)
    requires Init(s) && Legal(s, events, p) && x < |Run(s, events, p).log|
    ensures x in Run(s, events, p).outbox || x in Run(s, events, p).effects
  {
    RunKeepsHeld(s, events, p);
  }

  // ---- Network frames ----

  const FRAME_LIMIT: nat := 8388608

  function FrameSize(commands: seq<nat>): nat {
    if commands == [] then 0 else FrameSize(commands[..|commands| - 1]) + commands[|commands| - 1] + 1
  }

  function Joined(frames: seq<seq<nat>>): seq<nat> { if frames == [] then [] else frames[0] + Joined(frames[1..]) }

  /** The longest prefix that fits, or the first command alone. */
  method FirstFrame(commands: seq<nat>) returns (i: nat)
    requires commands != []
    ensures 0 < i <= |commands| && (FrameSize(commands[..i]) <= FRAME_LIMIT || i == 1)
    ensures i < |commands| ==> FrameSize(commands[..i] + [commands[i]]) > FRAME_LIMIT
  {
    var size := 0;
    i := 0;
    while i < |commands| && (i == 0 || size + commands[i] + 1 <= FRAME_LIMIT)
      invariant 0 <= i <= |commands| && size == FrameSize(commands[..i])
      invariant i > 1 ==> size <= FRAME_LIMIT
    {
      assert commands[..i + 1][..i] == commands[..i];
      size := size + commands[i] + 1;
      i := i + 1;
    }
    if i < |commands| {
      assert (commands[..i] + [commands[i]])[..i] == commands[..i];
    }
  }

  ghost predicate Framed(frames: seq<seq<nat>>) {
    && (forall f :: f in frames ==> f != [] && (FrameSize(f) <= FRAME_LIMIT || |f| == 1))
    && (forall i :: 0 <= i < |frames| - 1 ==> Overflows(frames[i], frames[i + 1]))
  }

  ghost predicate Overflows(f: seq<nat>, g: seq<nat>) { g != [] && FrameSize(f + [g[0]]) > FRAME_LIMIT }

  /** Splitting the commands of a batch, given by their lengths: bounded frames, nothing reordered or lost. */
  method SplitFrames(commands: seq<nat>) returns (frames: seq<seq<nat>>)
    ensures Joined(frames) == commands && Framed(frames)
    decreases |commands|
  {
    if commands == [] { return []; }
    hide FrameSize, Framed;
    var i := FirstFrame(commands);
    var rest := SplitFrames(commands[i..]);
    frames := [commands[..i]] + rest;
    assert frames[1..] == rest && commands[..i] + commands[i..] == commands;
    FramedCons(commands[..i], rest);
  }

  lemma FramedCons(f: seq<nat>, rest: seq<seq<nat>>)
    requires Framed(rest) && f != [] && (FrameSize(f) <= FRAME_LIMIT || |f| == 1)
    requires Joined(rest) != [] ==> FrameSize(f + [Joined(rest)[0]]) > FRAME_LIMIT
    ensures Framed([f] + rest)
  {
    hide FrameSize;
    var frames := [f] + rest;
    if rest != [] {
      assert rest[0] in rest;
      FirstCommand(rest);
    }
    forall i | 0 <= i < |frames| - 1 ensures Overflows(frames[i], frames[i + 1]) {
      if i > 0 { assert frames[i] == rest[i - 1] && frames[i + 1] == rest[i - 1 + 1]; }
    }
  }

  lemma FirstCommand(frames: seq<seq<nat>>)
    requires frames != [] && forall f :: f in frames ==> f != []
    ensures frames[0] != [] && Joined(frames) != [] && frames[0][0] == Joined(frames)[0]
  {
    assert frames[0] in frames;
  }
}
