/**
  Whether first effects on the replica follow the primary's order: in every run whose dropped records
  had taken effect already, and after no other drop.
  */
module ReplicationOrder {
  import opened Sequences
  import opened Replication

  // ---- Order per metric ----

  /** Whoever executes `ops` in order meets every operation after all earlier ones of its metric. */
  ghost predicate Closed(s: State, ops: seq<Op>) {
    && (forall i :: 0 <= i < |ops| ==> ops[i] < |s.log|)
    && (forall i, y :: 0 <= i < |ops| && Before(s, y, ops[i]) ==> y in s.receipts || y in ops[..i])
  }

  /** First effects follow the primary: an operation takes effect only after all earlier ones of its metric. */
  ghost predicate InOrder(s: State) {
    forall i, y :: 0 <= i < |s.effects| && Before(s, y, s.effects[i]) ==> y in s.effects[..i]
  }

  ghost predicate Pipeline(s: State) {
    && Closed(s, s.batch + s.queue)
    && (forall x :: x in s.waiting ==> x < |s.log|)
    && (forall x :: 0 <= x < |s.log| ==> x in s.receipts || x in s.batch + s.queue || x in s.waiting)
  }

  /** Everything that does not depend on the delivery path. */
  ghost predicate BaseInv(s: State) {
    && InOrder(s)
    && (forall x :: x in s.effects <==> x in s.receipts)
    && (forall x :: x in s.receipts || x in s.outbox ==> x < |s.log|)
    && (forall x :: 0 <= x < |s.log| ==> x in s.outbox || x in s.receipts)
  }

  ghost predicate SessionOk(s: State, t: Session) {
    && Closed(s, t.rest) && Accounts(t, s.frame, s.batch, s.receipts) && SawReceipts(t, s.receipts)
    && (t.phase.Checked? ==> t.phase.unseen <= Members(Unit(t)))
  }

  ghost predicate SessionsOk(s: State) { forall id :: id in s.sessions ==> SessionOk(s, s.sessions[id]) }

  ghost predicate OrderInv(s: State) {
    && BaseInv(s) && SessionsOk(s)
    && (s.up && !s.halted ==> Pipeline(s))
    && (!s.up ==> s.batch == [] && s.queue == [] && s.waiting == {})
  }

  /** A step drops nothing that has yet to take effect, unless nothing is sent afterwards. */
  predicate HarmlessStep(s: State, e: Event, p: Policy) {
    && (e.GiveUp? ==> p.afterSend || Members(s.batch) <= s.receipts)
    && (e.Drop? ==> p.afterDrop || e.op in s.receipts)
  }

  predicate Harmless(s: State, events: seq<Event>, p: Policy)
    requires Legal(s, events, p)
    decreases |events|
  {
    events != [] ==> HarmlessStep(s, events[0], p) && Harmless(Next(s, events[0], p), events[1..], p)
  }

  lemma ClosedGrows(s: State, s': State, ops: seq<Op>)
    requires Closed(s, ops) && s.log <= s'.log && s.receipts <= s'.receipts
    ensures Closed(s', ops)
  {
    forall i, y | 0 <= i < |ops| && Before(s', y, ops[i]) ensures y in s'.receipts || y in ops[..i] {
      assert Before(s, y, ops[i]);
    }
  }

  lemma ClosedPart(s: State, a: seq<Op>, b: seq<Op>)
    requires Closed(s, a + b)
    ensures Closed(s, a)
    ensures Members(a) <= s.receipts ==> Closed(s, b)
  {
    var ops := a + b;
    forall i, y | 0 <= i < |a| && Before(s, y, a[i]) ensures y in s.receipts || y in a[..i] {
      assert ops[i] == a[i] && ops[..i] == a[..i];
    }
    if Members(a) <= s.receipts {
      forall i, y | 0 <= i < |b| && Before(s, y, b[i]) ensures y in s.receipts || y in b[..i] {
        assert ops[|a| + i] == b[i] && ops[..|a| + i] == a + b[..i];
        if y in a { assert y in Members(a); }
      }
      forall i | 0 <= i < |b| ensures b[i] < |s.log| { assert ops[|a| + i] == b[i]; }
    }
    forall i | 0 <= i < |a| ensures a[i] < |s.log| { assert ops[i] == a[i]; }
  }

  // ---- Commits ----

  /** An applied operation comes after every other applied operation that precedes it in the batch. */
  lemma {:induction false} AppliedAt(ops: seq<Op>, unseen: set<Op>, k: nat) returns (j: nat)
    requires k < |Applied(ops, unseen)|
    ensures j < |ops| && ops[j] == Applied(ops, unseen)[k]
    ensures forall y :: y in ops[..j] && y in unseen ==> y in Applied(ops, unseen)[..k]
  {
    var all := Applied(ops, unseen);
    if ops[0] in unseen {
      var rest := Applied(ops[1..], unseen - {ops[0]});
      assert all == [ops[0]] + rest;
      if k == 0 {
        j := 0;
      } else {
        var i := AppliedAt(ops[1..], unseen - {ops[0]}, k - 1);
        j := i + 1;
        assert ops[..j] == [ops[0]] + ops[1..][..i] && all[..k] == [ops[0]] + rest[..k - 1];
      }
    } else {
      var i := AppliedAt(ops[1..], unseen, k);
      j := i + 1;
      assert ops[..j] == [ops[0]] + ops[1..][..i];
    }
  }

  lemma CommitKeepsOrder(s: State, ops: seq<Op>, unseen: set<Op>, s': State)
    requires InOrder(s) && Closed(s, ops) && (forall x :: x in s.receipts ==> x in s.effects)
    requires forall x :: x in ops ==> x in s.receipts || x in unseen
    requires s'.log == s.log && s'.effects == s.effects + Applied(ops, unseen)
    ensures InOrder(s')
  {
    hide Applied;
    var applied := Applied(ops, unseen);
    forall i, y | 0 <= i < |s'.effects| && Before(s', y, s'.effects[i]) ensures y in s'.effects[..i] {
      if i < |s.effects| {
        assert Before(s, y, s.effects[i]) && s'.effects[..i] == s.effects[..i];
      } else {
        var k := i - |s.effects|;
        var j := AppliedAt(ops, unseen, k);
        assert Before(s, y, ops[j]) && s'.effects[..i] == s.effects + applied[..k];
      }
    }
  }

  lemma CommitKeepsBase(s: State, id: nat, p: Policy)
    requires BaseInv(s) && SessionsOk(s) && Enabled(s, Commit(id), p)
    ensures BaseInv(Next(s, Commit(id), p))
  {
    hide InOrder, Closed, Applied, Unit, After;
    var s', t := Next(s, Commit(id), p), s.sessions[id];
    assert SessionOk(s, t);
    ClosedPart(s, Unit(t), After(t));
    InClosed(s, Unit(t));
    AppliedMembers(Unit(t), t.phase.unseen);
    CommitKeepsOrder(s, Unit(t), t.phase.unseen, s');
    assert forall x :: x in s'.effects <==> x in s'.receipts;
  }

  lemma InClosed(s: State, ops: seq<Op>)
    requires Closed(s, ops)
    ensures forall x :: x in ops ==> x < |s.log|
  {}

  lemma CommitKeepsSessions(s: State, id: nat, p: Policy)
    requires SessionsOk(s) && Enabled(s, Commit(id), p)
    ensures SessionsOk(Next(s, Commit(id), p))
  {
    var s', t := Next(s, Commit(id), p), s.sessions[id];
    hide Closed, Accounts, SawReceipts, Applied, Unit, After;
    forall o | o in s'.sessions ensures SessionOk(s', s'.sessions[o]) {
      assert SessionOk(s, s.sessions[o]);
      ClosedGrows(s, s', s.sessions[o].rest);
      MoreSeen(s.sessions[o], s.frame, s.batch, s.receipts, Members(Unit(t)));
      if o == id {
        ClosedPart(s', Unit(t), After(t));
        UnitDone(t, t.held, s.frame, s.batch, s.receipts);
      }
    }
  }

  lemma CommitKeepsInv(s: State, id: nat, p: Policy)
    requires OrderInv(s) && Enabled(s, Commit(id), p)
    ensures OrderInv(Next(s, Commit(id), p))
  {
    CommitKeepsBase(s, id, p);
    CommitKeepsSessions(s, id, p);
    hide Closed, BaseInv, SessionsOk, Applied, Unit, After;
    var s' := Next(s, Commit(id), p);
    if s.up && !s.halted { ClosedGrows(s, s', s.batch + s.queue); }
  }

  // ---- The other steps ----

  lemma SameBase(s: State, s': State)
    requires BaseInv(s) && s'.log == s.log && s'.receipts == s.receipts && s'.effects == s.effects
             && s'.outbox == s.outbox
    ensures BaseInv(s')
  {
    forall i, y | 0 <= i < |s'.effects| && Before(s', y, s'.effects[i]) ensures y in s'.effects[..i] {
      assert Before(s, y, s.effects[i]);
    }
  }

  lemma SameClosed(s: State, s': State, ops: seq<Op>)
    requires Closed(s, ops) && s'.log == s.log && s'.receipts == s.receipts
    ensures Closed(s', ops)
  {
    ClosedGrows(s, s', ops);
  }

  /** A session is as it was, or has moved without committing. */
  ghost predicate Follows(s: State, t: Session, t': Session) {
    && t'.rest == t.rest && t'.frame == t.frame
    && (t'.phase.Checked? ==> t' == t || t'.phase.unseen == Members(Unit(t')) - s.receipts)
  }

  lemma SessionsStay(s: State, s': State)
    requires SessionsOk(s) && s.log <= s'.log && s.receipts <= s'.receipts && s.frame <= s'.frame
    requires s'.frame == s.frame ==> s'.batch == s.batch
    requires forall id :: id in s'.sessions ==> id in s.sessions && Follows(s, s.sessions[id], s'.sessions[id])
    ensures SessionsOk(s')
  {
    hide Closed, Unit;
    forall id | id in s'.sessions ensures SessionOk(s', s'.sessions[id]) { ClosedGrows(s, s', s.sessions[id].rest); }
  }

  lemma PutKeepsInv(s: State, entry: Entry, p: Policy)
    requires OrderInv(s) && Enabled(s, Put(entry), p)
    ensures OrderInv(Next(s, Put(entry), p))
  {
    var s' := Next(s, Put(entry), p);
    SessionsStay(s, s');
    assert BaseInv(s') by {
      forall i, y | 0 <= i < |s'.effects| && Before(s', y, s'.effects[i]) ensures y in s'.effects[..i] {
        assert s.effects[i] in s.receipts;
        assert Before(s, y, s.effects[i]);
      }
    }
    hide Closed, BaseInv, SessionsOk;
    if s.up && !s.halted { ClosedGrows(s, s', s.batch + s.queue); }
  }

  lemma EnqueueKeepsPipeline(s: State, op: Op, p: Policy)
    requires Pipeline(s) && Enabled(s, Enqueue(op), p)
    ensures Pipeline(Next(s, Enqueue(op), p))
  {
    var s' := Next(s, Enqueue(op), p);
    var ops := s.batch + s.queue;
    assert s'.batch + s'.queue == ops + [op];
    forall i, y | 0 <= i < |ops| + 1 && Before(s', y, (ops + [op])[i])
      ensures y in s'.receipts || y in (ops + [op])[..i]
    {
      assert Before(s, y, (ops + [op])[i]);
      if i < |ops| { assert (ops + [op])[..i] == ops[..i]; } else { assert (ops + [op])[..i] == ops; }
    }
    assert Closed(s', ops + [op]);
    hide Closed;
    forall x | 0 <= x < |s'.log| ensures x in s'.receipts || x in s'.batch + s'.queue || x in s'.waiting {
      assert x in s.receipts || x in ops || x in s.waiting;
    }
  }

  /** The frame being sent may go once all of it has taken effect. */
  lemma BatchGoes(s: State, s': State)
    requires Pipeline(s) && Members(s.batch) <= s.receipts
    requires s'.log == s.log && s'.receipts == s.receipts && s'.waiting == s.waiting && s'.queue == s.queue
             && s'.batch == []
    ensures Pipeline(s')
  {
    hide Closed;
    ClosedPart(s, s.batch, s.queue);
    assert s'.batch + s'.queue == s.queue;
    SameClosed(s, s', s.queue);
    forall x | 0 <= x < |s'.log| ensures x in s'.receipts || x in s'.queue || x in s'.waiting {
      assert x in s.batch ==> x in Members(s.batch);
      assert x in s.receipts || x in s.batch + s.queue || x in s.waiting;
    }
  }

  lemma SortedClosed(s: State, order: seq<Op>)
    requires Sorted(order) && Members(order) == s.outbox
    requires forall x :: x in s.outbox ==> x < |s.log|
    requires forall x :: 0 <= x < |s.log| ==> x in s.outbox || x in s.receipts
    ensures Closed(s, order)
  {
    forall i | 0 <= i < |order| ensures order[i] < |s.log| { assert order[i] in Members(order); }
    forall i, y | 0 <= i < |order| && Before(s, y, order[i]) ensures y in s.receipts || y in order[..i] {
      if y !in s.receipts {
        assert y in Members(order);
        var j :| 0 <= j < |order| && order[j] == y;
        assert j < i;
        assert order[..i][j] == y;
      }
    }
  }

  lemma RecoveredPipeline(s: State, order: seq<Op>)
    requires Closed(s, order) && s.batch == [] && s.queue == order && s.waiting == {} && Members(order) == s.outbox
    requires forall x :: 0 <= x < |s.log| ==> x in s.outbox || x in s.receipts
    ensures Pipeline(s)
  {
    hide Closed;
    assert s.batch + s.queue == order;
    forall x | 0 <= x < |s.log| ensures x in s.receipts || x in s.batch + s.queue {
      assert x in s.outbox ==> x in Members(order);
    }
  }

  lemma Outstanding(s: State)
    requires BaseInv(s)
    ensures forall x :: x in s.outbox ==> x < |s.log|
    ensures forall x :: 0 <= x < |s.log| ==> x in s.outbox || x in s.receipts
  {}

  /** Recovery puts the whole outbox back in sequence order, ahead of everything new. */
  lemma RecoverKeepsInv(s: State, order: seq<Op>, p: Policy)
    requires OrderInv(s) && Enabled(s, Recover(order), p)
    ensures OrderInv(Next(s, Recover(order), p))
  {
    hide Closed, BaseInv, SessionsOk, Pipeline, Sorted, Members;
    var s' := Next(s, Recover(order), p);
    Outstanding(s);
    SortedClosed(s, order);
    SameClosed(s, s', order);
    SameBase(s, s');
    SessionsStay(s, s');
    RecoveredPipeline(s', order);
  }

  lemma CrashKeepsBase(s: State, undeleted: set<Op>, p: Policy)
    requires BaseInv(s) && Enabled(s, Crash(undeleted), p)
    ensures BaseInv(Next(s, Crash(undeleted), p))
  {
    var s' := Next(s, Crash(undeleted), p);
    forall i, y | 0 <= i < |s'.effects| && Before(s', y, s'.effects[i]) ensures y in s'.effects[..i] {
      assert Before(s, y, s.effects[i]);
    }
  }

  lemma AckKeepsBase(s: State, id: nat, deleted: set<Op>, p: Policy)
    requires BaseInv(s) && Enabled(s, Ack(id, deleted), p) && Members(s.batch) <= s.receipts
    ensures BaseInv(Next(s, Ack(id, deleted), p))
  {
    var s' := Next(s, Ack(id, deleted), p);
    forall i, y | 0 <= i < |s'.effects| && Before(s', y, s'.effects[i]) ensures y in s'.effects[..i] {
      assert Before(s, y, s.effects[i]);
    }
  }

  lemma AckKeepsInv(s: State, id: nat, deleted: set<Op>, p: Policy)
    requires OrderInv(s) && Enabled(s, Ack(id, deleted), p)
    ensures OrderInv(Next(s, Ack(id, deleted), p))
  {
    hide Closed, BaseInv, Pipeline;
    assert SessionOk(s, s.sessions[id]);
    assert Members(s.batch) <= s.receipts;
    AckKeepsBase(s, id, deleted, p);
    SessionsStay(s, Next(s, Ack(id, deleted), p));
    if s.up && !s.halted { BatchGoes(s, Next(s, Ack(id, deleted), p)); }
  }

  lemma TakeKeepsInv(s: State, count: nat, p: Policy)
    requires OrderInv(s) && Enabled(s, Take(count), p)
    ensures OrderInv(Next(s, Take(count), p))
  {
    hide Closed, BaseInv, SessionsOk;
    var s' := Next(s, Take(count), p);
    SameBase(s, s');
    SessionsStay(s, s');
    assert s'.batch + s'.queue == s.queue == s.batch + s.queue;
    SameClosed(s, s', s.queue);
  }

  lemma SendKeepsInv(s: State, id: nat, p: Policy)
    requires OrderInv(s) && Enabled(s, Send(id), p)
    ensures OrderInv(Next(s, Send(id), p))
  {
    hide Closed, BaseInv;
    var s' := Next(s, Send(id), p);
    SameBase(s, s');
    ClosedPart(s, s.batch, s.queue);
    SameClosed(s, s', s.batch);
    SameClosed(s, s', s.batch + s.queue);
    forall o | o in s'.sessions ensures SessionOk(s', s'.sessions[o]) {
      if o != id { ClosedGrows(s, s', s.sessions[o].rest); }
    }
  }

  lemma EnqueueKeepsInv(s: State, op: Op, p: Policy)
    requires OrderInv(s) && Enabled(s, Enqueue(op), p)
    ensures OrderInv(Next(s, Enqueue(op), p))
  {
    hide Closed, BaseInv, SessionsOk, Pipeline;
    var s' := Next(s, Enqueue(op), p);
    SameBase(s, s');
    SessionsStay(s, s');
    EnqueueKeepsPipeline(s, op, p);
  }

  /** Dropping records is harmless when they have taken effect, or when nothing is sent afterwards. */
  lemma DropKeepsInv(s: State, e: Event, p: Policy)
    requires OrderInv(s) && Enabled(s, e, p) && (e.GiveUp? || e.Drop?) && HarmlessStep(s, e, p)
    ensures OrderInv(Next(s, e, p))
  {
    hide Closed, BaseInv, SessionsOk, Pipeline;
    var s' := Next(s, e, p);
    SameBase(s, s');
    SessionsStay(s, s');
    if s.up && !s'.halted { if e.GiveUp? { BatchGoes(s, s'); } else { WaitingGoes(s, s', e.op); } }
  }

  lemma WaitingGoes(s: State, s': State, op: Op)
    requires Pipeline(s) && op in s.receipts
    requires s'.log == s.log && s'.receipts == s.receipts && s'.waiting == s.waiting - {op} && s'.queue == s.queue
             && s'.batch == s.batch
    ensures Pipeline(s')
  {
    SameClosed(s, s', s.batch + s.queue);
    hide Closed;
  }

  /** Steps on the replica before a commit or after it, and steps that move no record. */
  lemma QuietKeepsInv(s: State, e: Event, p: Policy)
    requires OrderInv(s) && Enabled(s, e, p) && (e.Stop? || e.Abort? || (Executes(e) && !e.Commit?))
    ensures OrderInv(Next(s, e, p))
  {
    hide Closed, BaseInv, SessionsOk, Missing, Unit;
    var s' := Next(s, e, p);
    SameBase(s, s');
    if e.Check? { SameUnit(s.sessions[e.id], Members(Unit(s.sessions[e.id])) - s.receipts); }
    SessionsStay(s, s');
    if s.up && !s.halted { SameClosed(s, s', s.batch + s.queue); }
  }

  lemma SameUnit(t: Session, unseen: set<Op>)
    requires t.phase.Locking?
    ensures Unit(t.(phase := Checked(t.phase.unit, unseen))) == Unit(t)
  {}

  lemma CrashKeepsInv(s: State, undeleted: set<Op>, p: Policy)
    requires OrderInv(s) && Enabled(s, Crash(undeleted), p)
    ensures OrderInv(Next(s, Crash(undeleted), p))
  {
    hide Closed, BaseInv, SessionsOk, Pipeline;
    CrashKeepsBase(s, undeleted, p);
    SessionsStay(s, Next(s, Crash(undeleted), p));
  }

  lemma StepKeepsOrder(s: State, e: Event, p: Policy)
    requires OrderInv(s) && Enabled(s, e, p) && HarmlessStep(s, e, p)
    ensures OrderInv(Next(s, e, p))
  {
    hide OrderInv, Enabled, Next, HarmlessStep;
    match e
    case Put(entry) => PutKeepsInv(s, entry, p);
    case Enqueue(op) => EnqueueKeepsInv(s, op, p);
    case Take(count) => TakeKeepsInv(s, count, p);
    case Send(id) => SendKeepsInv(s, id, p);
    case Ack(id, deleted) => AckKeepsInv(s, id, deleted, p);
    case Commit(id) => CommitKeepsInv(s, id, p);
    case Crash(undeleted) => CrashKeepsInv(s, undeleted, p);
    case Recover(order) => RecoverKeepsInv(s, order, p);
    case GiveUp => DropKeepsInv(s, e, p);
    case Drop(_) => DropKeepsInv(s, e, p);
    case _ => QuietKeepsInv(s, e, p);
  }

  lemma {:induction false} RunKeepsOrder(s: State, events: seq<Event>, p: Policy)
    requires OrderInv(s) && Legal(s, events, p) && Harmless(s, events, p)
    ensures OrderInv(Run(s, events, p))
    decreases |events|
  {
    hide OrderInv, Enabled, Next, HarmlessStep;
    if events != [] {
      StepKeepsOrder(s, events[0], p);
      RunKeepsOrder(Next(s, events[0], p), events[1..], p);
    }
  }

  lemma InitOrder(s: State)
    requires Init(s)
    ensures OrderInv(s)
  {}

  lemma OrderOfInv(s: State)
    requires OrderInv(s)
    ensures InOrder(s)
  {}

  /** First effects of every metric follow the primary's order in every run whose drops are harmless. */
  lemma HarmlessRunsInOrder(s: State, events: seq<Event>, p: Policy)
    requires Init(s) && Legal(s, events, p) && Harmless(s, events, p)
    ensures InOrder(Run(s, events, p))
  {
    hide Init, OrderInv, InOrder;
    InitOrder(s);
    RunKeepsOrder(s, events, p);
    OrderOfInv(Run(s, events, p));
  }

  lemma {:induction false} WithoutStop(s: State, events: seq<Event>, p: Policy)
    requires Legal(s, events, p) && !s.stopping && forall e :: e in events ==> !e.Stop?
    ensures Harmless(s, events, p)
    decreases |events|
  {
    if events != [] {
      assert events[0] in events && forall e :: e in events[1..] ==> e in events;
      WithoutStop(Next(s, events[0], p), events[1..], p);
    }
  }

  /** In particular every run without a shutdown, whatever crashes, retries and overlaps there are. */
  lemma InOrderUntilStop(s: State, events: seq<Event>, p: Policy)
    requires Init(s) && Legal(s, events, p) && forall e :: e in events ==> !e.Stop?
    ensures InOrder(Run(s, events, p))
  {
    WithoutStop(s, events, p);
    HarmlessRunsInOrder(s, events, p);
  }

  // ---- Each record is in one place ----

  ghost predicate Flow(ops: seq<Op>, waiting: set<Op>, outbox: set<Op>, size: nat) {
    && Once(ops) && (forall x :: x in ops ==> x !in waiting && x < size)
    && (forall x :: x in waiting || x in outbox ==> x < size)
  }

  ghost predicate FlowInv(s: State) {
    && Flow(s.batch + s.queue, s.waiting, s.outbox, |s.log|)
    && (!s.up ==> s.batch == [] && s.queue == [] && s.waiting == {})
  }

  lemma PutFlows(ops: seq<Op>, waiting: set<Op>, outbox: set<Op>, size: nat)
    requires Flow(ops, waiting, outbox, size)
    ensures Flow(ops, waiting + {size}, outbox + {size}, size + 1)
  {}

  lemma EnqueueFlows(ops: seq<Op>, waiting: set<Op>, outbox: set<Op>, size: nat, op: Op)
    requires Flow(ops, waiting, outbox, size) && op in waiting
    ensures Flow(ops + [op], waiting - {op}, outbox, size)
  {
    OnceJoined(ops, [op]);
    hide Once;
  }

  lemma FewerFlow(a: seq<Op>, b: seq<Op>, waiting: set<Op>, fewer: set<Op>, outbox: set<Op>, left: set<Op>, size: nat)
    requires Flow(a + b, waiting, outbox, size) && fewer <= waiting && left <= outbox
    ensures Flow(b, fewer, left, size)
  {
    var all := a + b;
    forall i, j | 0 <= i < j < |b| ensures b[i] != b[j] { assert all[|a| + i] == b[i] && all[|a| + j] == b[j]; }
    assert forall x :: x in b ==> x in all;
  }

  lemma RecoverFlows(order: seq<Op>, outbox: set<Op>, size: nat)
    requires Flow([], {}, outbox, size) && Sorted(order) && Members(order) == outbox
    ensures Flow(order, {}, outbox, size)
  {
    assert forall x :: x in order ==> x in Members(order);
  }

  lemma CrashFlows(ops: seq<Op>, waiting: set<Op>, outbox: set<Op>, size: nat, undeleted: set<Op>)
    requires Flow(ops, waiting, outbox, size) && forall x :: x in undeleted ==> x < size
    ensures Flow([], {}, outbox + undeleted, size)
  {}

  lemma StepKeepsFlow(s: State, e: Event, p: Policy)
    requires FlowInv(s) && Enabled(s, e, p)
    ensures FlowInv(Next(s, e, p))
  {
    hide Flow, Unit, After, Applied, Missing, Sorted, Members;
    var s', all := Next(s, e, p), s.batch + s.queue;
    match e
    case Put(_) =>
      PutFlows(all, s.waiting, s.outbox, |s.log|);
    case Enqueue(op) =>
      EnqueueFlows(all, s.waiting, s.outbox, |s.log|, op);
      assert s'.batch + s'.queue == all + [op];
    case Recover(order) =>
      assert all == [];
      RecoverFlows(order, s.outbox, |s.log|);
      assert s'.batch + s'.queue == order;
    case Crash(undeleted) =>
      CrashFlows(all, s.waiting, s.outbox, |s.log|, undeleted);
      assert s'.batch + s'.queue == [];
    case _ =>
      assert s'.batch + s'.queue == all || s'.batch + s'.queue == s.queue;
      assert [] + all == all;
      FewerFlow([], all, s.waiting, s'.waiting, s.outbox, s'.outbox, |s.log|);
      FewerFlow(s.batch, s.queue, s.waiting, s'.waiting, s.outbox, s'.outbox, |s.log|);
  }

  lemma {:induction false} RunKeepsFlow(s: State, events: seq<Event>, p: Policy)
    requires FlowInv(s) && Legal(s, events, p)
    ensures FlowInv(Run(s, events, p))
    decreases |events|
  {
    hide FlowInv, Enabled, Next;
    if events != [] {
      StepKeepsFlow(s, events[0], p);
      RunKeepsFlow(Next(s, events[0], p), events[1..], p);
    }
  }

  // ---- A lost record can be overtaken ----

  predicate NoDrops(events: seq<Event>) { forall e :: e in events ==> !e.GiveUp? && !e.Drop? }

  /** Some run that drops nothing leads from one state to the other. */
  ghost predicate Reaches(s: State, t: State, p: Policy) {
    exists events :: Legal(s, events, p) && NoDrops(events) && Run(s, events, p) == t
  }

  lemma ReachSelf(s: State, p: Policy)
    ensures Reaches(s, s, p)
  {
    NoStep(s, p);
    assert NoDrops([]);
  }

  lemma ReachFurther(s: State, t: State, u: State, p: Policy)
    requires Reaches(s, t, p) && Reaches(t, u, p)
    ensures Reaches(s, u, p)
  {
    hide Legal, Run;
    var a :| Legal(s, a, p) && NoDrops(a) && Run(s, a, p) == t;
    var b :| Legal(t, b, p) && NoDrops(b) && Run(t, b, p) == u;
    Append(s, a, b, p);
    assert NoDrops(a + b);
  }

  lemma ReachStep(s: State, t: State, e: Event, p: Policy)
    requires Reaches(s, t, p) && Enabled(t, e, p) && !e.GiveUp? && !e.Drop?
    ensures Reaches(s, Next(t, e, p), p)
  {
    hide Enabled, Next;
    OneStep(t, e, p);
    assert NoDrops([e]);
    ReachFurther(s, t, Next(t, e, p), p);
  }

  lemma {:induction false} AbortAll(s: State, p: Policy)
    ensures Reaches(s, s.(sessions := map[]), p)
    decreases |s.sessions|
  {
    hide Reaches;
    ReachSelf(s, p);
    if s.sessions != map[] {
      var id :| id in s.sessions;
      ReachStep(s, s, Abort(id), p);
      var t := Next(s, Abort(id), p);
      assert s.sessions.Keys == t.sessions.Keys + {id};
      AbortAll(t, p);
      ReachFurther(s, t, s.(sessions := map[]), p);
    } else {
      assert s.(sessions := map[]) == s;
    }
  }

  /** A lone execution locks all it needs. */
  lemma {:induction false} AcquireAll(s: State, t: Session, p: Policy) returns (held: set<nat>)
    requires s.sessions == map[0 := t] && t.phase.Locking?
    ensures Reaches(s, s.(sessions := map[0 := t.(held := held)]), p)
    ensures p.locks ==> Missing(s.log, t.(held := held)) == {}
    decreases |Missing(s.log, t)|
  {
    hide Reaches, Stripes;
    held := t.held;
    ReachSelf(s, p);
    assert t.(held := held) == t && s.(sessions := map[0 := t]) == s;
    if p.locks && Missing(s.log, t) != {} {
      var l := LeastNat(Missing(s.log, t));
      ReachStep(s, s, Acquire(0, l), p);
      var t' := t.(held := t.held + {l});
      var s' := s.(sessions := map[0 := t']);
      assert s' == Next(s, Acquire(0, l), p);
      assert Unit(t') == Unit(t) && Missing(s.log, t) == Missing(s.log, t') + {l};
      held := AcquireAll(s', t', p);
      var end := s.(sessions := map[0 := t.(held := held)]);
      assert end == s'.(sessions := map[0 := t'.(held := held)]);
      ReachFurther(s, s', end, p);
    }
  }

  lemma {:induction false} ReleaseAll(s: State, t: Session, p: Policy)
    requires s.sessions == map[0 := Unlocked(t, t.held)]
    ensures Reaches(s, s.(sessions := map[0 := Unlocked(t, {})]), p)
    decreases |t.held|
  {
    hide Reaches;
    ReachSelf(s, p);
    var end := s.(sessions := map[0 := Unlocked(t, {})]);
    if t.held == {} {
      assert end == s;
    } else {
      var l :| l in t.held;
      ReachStep(s, s, Release(0, l), p);
      var s' := Next(s, Release(0, l), p);
      assert s' == s.(sessions := map[0 := Unlocked(t.(held := t.held - {l}), t.held - {l})]);
      assert t.held == (t.held - {l}) + {l};
      ReleaseAll(s', t.(held := t.held - {l}), p);
      assert Unlocked(t.(held := t.held - {l}), {}) == Unlocked(t, {});
      ReachFurther(s, s', end, p);
    }
  }

  /** The state after the frame being sent was executed and acknowledged, and the given records deleted. */
  function Delivered(s: State, deleted: set<Op>): State {
    s.(outbox := s.outbox - (Members(s.batch) * deleted), batch := [], frame := s.frame + 1,
    receipts := s.receipts + Members(s.batch),
    effects := s.effects + Applied(s.batch, Members(s.batch) - s.receipts))
  }

  lemma StartFrame(s: State, p: Policy) returns (t: Session)
    requires s.up && !s.halted && s.batch != [] && s.sessions == map[]
    ensures t.rest == s.batch && t.frame == s.frame && t.phase == Locking(|s.batch|)
    ensures Reaches(s, s.(sessions := map[0 := t]), p) && (p.locks ==> Missing(s.log, t) == {})
  {
    hide Reaches, Missing;
    ReachSelf(s, p);
    ReachStep(s, s, Send(0), p);
    var sent := Next(s, Send(0), p);
    ReachStep(s, sent, Begin(0, |s.batch|), p);
    t := Session(s.batch, s.frame, Locking(|s.batch|), {});
    var begun := s.(sessions := map[0 := t]);
    assert begun == Next(sent, Begin(0, |s.batch|), p);
    var held := AcquireAll(begun, t, p);
    t := t.(held := held);
    ReachFurther(s, begun, s.(sessions := map[0 := t]), p);
  }

  lemma ExecuteFrame(s: State, t: Session, p: Policy)
    requires s.sessions == map[0 := t] && t.phase == Locking(|t.rest|) && (p.locks ==> Missing(s.log, t) == {})
    ensures var unseen := Members(t.rest) - s.receipts;
            Reaches(s, s.(sessions := map[0 := Session([], t.frame, Idle, {})],
              receipts := s.receipts + Members(t.rest),
                    effects := s.effects + Applied(t.rest, unseen)), p)
  {
    hide Reaches, Missing, Applied;
    var unseen := Members(t.rest) - s.receipts;
    ReachSelf(s, p);
    ReachStep(s, s, Check(0), p);
    var checked := Next(s, Check(0), p);
    var c := t.(phase := Checked(|t.rest|, unseen));
    assert Unit(t) == t.rest && Unit(c) == t.rest && After(c) == [];
    assert checked.sessions == map[0 := c];
    ReachStep(s, checked, Commit(0), p);
    var committed := Next(checked, Commit(0), p);
    var d := c.(rest := []);
    assert committed.sessions == map[0 := Unlocked(d, d.held)];
    ReleaseAll(committed, d, p);
    ReachFurther(s, committed, committed.(sessions := map[0 := Unlocked(d, {})]), p);
  }

  lemma Deliver(s: State, deleted: set<Op>, p: Policy)
    requires s.up && !s.halted && s.batch != [] && s.sessions == map[]
    ensures Reaches(s, Delivered(s, deleted), p)
  {
    hide Reaches, Missing, Applied;
    var t := StartFrame(s, p);
    var begun := s.(sessions := map[0 := t]);
    ExecuteFrame(begun, t, p);
    var done := begun.(sessions := map[0 := Session([], s.frame, Idle, {})], receipts := s.receipts + Members(s.batch),
                effects := s.effects + Applied(s.batch, Members(s.batch) - s.receipts));
    ReachFurther(s, begun, done, p);
    ReachStep(s, done, Ack(0, deleted), p);
    var end := Next(done, Ack(0, deleted), p);
    assert end.sessions == map[];
    assert end == Delivered(s, deleted);
  }

  lemma {:induction false} EnqueueAll(s: State, p: Policy) returns (w: seq<Op>)
    requires s.up && !s.halted
    ensures Members(w) == s.waiting && Reaches(s, s.(waiting := {}, queue := s.queue + w), p)
    decreases |s.waiting|
  {
    hide Reaches;
    ReachSelf(s, p);
    if s.waiting == {} {
      w := [];
      assert s.(waiting := {}, queue := s.queue + w) == s;
    } else {
      var op := LeastNat(s.waiting);
      ReachStep(s, s, Enqueue(op), p);
      var t := Next(s, Enqueue(op), p);
      assert s.waiting == t.waiting + {op};
      var rest := EnqueueAll(t, p);
      w := [op] + rest;
      var end := s.(waiting := {}, queue := s.queue + w);
      assert s.queue + w == t.queue + rest;
      assert Members(w) == {op} + Members(rest);
      ReachFurther(s, t, end, p);
    }
  }

  /** A frame on its way is delivered first. */
  lemma Settle(s: State, p: Policy) returns (t: State)
    requires s.up && !s.halted
    ensures Reaches(s, t, p) && t.up && !t.halted && t.batch == [] && t.sessions == map[]
    ensures t.log == s.log && t.queue == s.queue && t.waiting == s.waiting
    ensures forall x :: x in t.receipts <==> x in s.receipts || x in s.batch
    ensures forall x :: x in t.effects ==> x in s.effects || x in s.batch
  {
    hide Reaches, Applied;
    AbortAll(s, p);
    t := s.(sessions := map[]);
    if s.batch != [] {
      Deliver(t, {}, p);
      AppliedMembers(s.batch, Members(s.batch) - s.receipts);
      ReachFurther(s, t, Delivered(t, {}), p);
      t := Delivered(t, {});
    }
  }

  /** A new operation of the metric is queued behind everything on its way, and all of it delivered. */
  lemma DeliverNew(s: State, metric: nat, p: Policy) returns (t: State)
    requires s.up && !s.halted && s.batch == [] && s.sessions == map[]
    requires forall x :: x in s.receipts ==> x < |s.log|
    ensures Reaches(s, t, p) && t.log == s.log + [Entry(metric, {0})] && |s.log| in t.effects
    ensures forall x :: x in t.effects ==> x in s.effects || x in s.queue || x in s.waiting || x == |s.log|
  {
    hide Reaches, Applied;
    ReachSelf(s, p);
    var entry := Entry(metric, {0});
    ReachStep(s, s, Put(entry), p);
    var put := Next(s, Put(entry), p);
    var w := EnqueueAll(put, p);
    var queued := put.(waiting := {}, queue := put.queue + w);
    ReachFurther(s, put, queued, p);
    assert |s.log| in Members(w);
    ReachStep(s, queued, Take(|queued.queue|), p);
    var taken := Next(queued, Take(|queued.queue|), p);
    assert taken.batch == s.queue + w;
    Deliver(taken, {}, p);
    AppliedMembers(taken.batch, Members(taken.batch) - taken.receipts);
    t := Delivered(taken, {});
    ReachFurther(s, taken, t, p);
    assert forall x :: x in w ==> x in Members(w);
  }

  /** An operation that is nowhere on the delivery path can be overtaken by one that is yet to come. */
  lemma Overtaken(s: State, x: Op, p: Policy) returns (t: State)
    requires s.up && !s.halted && x < |s.log| && (forall y :: y in s.receipts || y in s.batch ==> y < |s.log|)
    requires x !in s.effects && x !in s.batch && x !in s.queue && x !in s.waiting
    ensures Reaches(s, t, p) && !InOrder(t)
  {
    hide Reaches;
    var settled := Settle(s, p);
    t := DeliverNew(settled, s.log[x].metric, p);
    ReachFurther(s, settled, t, p);
    var z := |s.log|;
    var i :| 0 <= i < |t.effects| && t.effects[i] == z;
    assert Before(t, x, t.effects[i]) && x !in t.effects[..i];
  }

  // ---- Everything can be delivered ----

  /** A restart puts the whole outbox into the queue, in sequence order. */
  lemma Restart(s: State, p: Policy) returns (t: State)
    ensures Reaches(s, t, p) && t.up && !t.halted && t.batch == [] && t.sessions == map[]
    ensures Members(t.queue) == s.outbox == t.outbox && t.log == s.log
    ensures t.receipts == s.receipts && t.effects == s.effects
  {
    hide Reaches;
    AbortAll(s, p);
    var quiet := s.(sessions := map[]);
    ReachStep(s, quiet, Crash({}), p);
    var down := Next(quiet, Crash({}), p);
    assert down.outbox == s.outbox;
    var order := SortedSet(s.outbox);
    assert Members(order) == s.outbox;
    ReachStep(s, down, Recover(order), p);
    t := Next(down, Recover(order), p);
  }

  /** After a restart the whole outbox can take effect and be deleted. */
  lemma RestartDrains(s: State, p: Policy) returns (t: State)
    ensures Reaches(s, t, p) && t.outbox == {} && t.log == s.log && s.receipts <= t.receipts
    ensures forall x :: x in s.effects || x in s.outbox ==> x in t.effects || x in s.receipts
  {
    hide Reaches, Applied;
    var up := Restart(s, p);
    if s.outbox == {} { t := up; return; }
    assert up.queue != [];
    ReachStep(s, up, Take(|up.queue|), p);
    var taken := Next(up, Take(|up.queue|), p);
    assert taken.batch == up.queue;
    Deliver(taken, s.outbox, p);
    AppliedMembers(taken.batch, Members(taken.batch) - taken.receipts);
    t := Delivered(taken, s.outbox);
    ReachFurther(s, taken, t, p);
    assert forall x :: x in s.outbox ==> x in Members(taken.batch);
  }

  /**
    Whatever happened, drops included: from every reachable state some continuation applies every
    operation the primary ever put into the outbox and empties it.
    */
  lemma NothingIsLost(s: State, events: seq<Event>, p: Policy) returns (t: State)
    requires Init(s) && Legal(s, events, p)
    ensures Reaches(Run(s, events, p), t, p) && t.outbox == {} && t.log == Run(s, events, p).log
    ensures forall x :: 0 <= x < |t.log| ==> x in t.effects
  {
    var u := Run(s, events, p);
    RunKeepsHeld(s, events, p);
    hide Reaches, Legal, Run, Enabled, Next;
    t := RestartDrains(u, p);
    EffectsStay(u, t, p);
  }

  lemma EffectsStay(s: State, t: State, p: Policy)
    requires Reaches(s, t, p)
    ensures s.effects <= t.effects
  {
    hide Legal, Run;
    var events :| Legal(s, events, p) && NoDrops(events) && Run(s, events, p) == t;
    RunAddsEffects(s, events, p);
  }

  lemma {:induction false} RunAddsEffects(s: State, events: seq<Event>, p: Policy)
    requires Legal(s, events, p)
    ensures s.effects <= Run(s, events, p).effects
    decreases |events|
  {
    if events != [] {
      hide Unit, After, Applied, Missing;
      assert s.effects <= Next(s, events[0], p).effects;
      RunAddsEffects(Next(s, events[0], p), events[1..], p);
    }
  }

  /** The order is per metric: an operation of another metric may take effect first. */
  lemma OtherMetricsPass(p: Policy) returns (events: seq<Event>)
    ensures Legal(EMPTY, events, p)
    ensures var t := Run(EMPTY, events, p);
            |t.log| == 2 && t.log[0].metric != t.log[1].metric && t.effects == [1] && InOrder(t)
  {
    var queued := SecondQueued(p);
    hide Legal, Run;
    var s := Run(EMPTY, queued, p);
    ReachSelf(s, p);
    ReachStep(s, s, Take(1), p);
    var taken := Next(s, Take(1), p);
    assert taken.batch == [1];
    Deliver(taken, {}, p);
    ReachFurther(s, taken, Delivered(taken, {}), p);
    var more :| Legal(s, more, p) && NoDrops(more) && Run(s, more, p) == Delivered(taken, {});
    Append(EMPTY, queued, more, p);
    events := queued + more;
    assert Members([1]) - {} == {1} && Applied([1], {1}) == [1] + Applied([], {});
  }

  lemma SecondQueued(p: Policy) returns (events: seq<Event>)
    ensures Legal(EMPTY, events, p)
    ensures Run(EMPTY, events, p)
            == EMPTY.(log := [Entry(7, {0}), Entry(8, {1})], outbox := {0, 1}, up := true, waiting := {0}, queue := [1])
  {
    hide Legal, Run;
    events := [];
    NoStep(EMPTY, p);
    Extend(EMPTY, events, Recover([]), p);
    events := events + [Recover([])];
    Extend(EMPTY, events, Put(Entry(7, {0})), p);
    events := events + [Put(Entry(7, {0}))];
    Extend(EMPTY, events, Put(Entry(8, {1})), p);
    events := events + [Put(Entry(8, {1}))];
    Extend(EMPTY, events, Enqueue(1), p);
    events := events + [Enqueue(1)];
    assert [Entry(7, {0})] + [Entry(8, {1})] == [Entry(7, {0}), Entry(8, {1})];
  }

  /** In order: no operation took effect before an earlier one of its metric. */
  lemma InOrderMeans(s: State)
    ensures InOrder(s) <==>
              forall i, y: nat ::
                0 <= i < |s.effects| && y < s.effects[i] < |s.log| && s.log[y].metric == s.log[s.effects[i]].metric ==>
                  y in s.effects[..i]
  {
    if InOrder(s) {
      forall i, y: nat
        | 0 <= i < |s.effects| && y < s.effects[i] < |s.log| && s.log[y].metric == s.log[s.effects[i]].metric
        ensures y in s.effects[..i]
      {
        assert Before(s, y, s.effects[i]);
      }
    }
  }

  // ---- Exactly which drops break the order ----

  /** Nothing that can follow, dropping only what has taken effect, shows effects out of order. */
  ghost predicate StaysInOrder(s: State, p: Policy) {
    forall events :: Legal(s, events, p) && Harmless(s, events, p) ==> InOrder(Run(s, events, p))
  }

  lemma {:induction false} NoDropsHarmless(s: State, events: seq<Event>, p: Policy)
    requires Legal(s, events, p) && NoDrops(events)
    ensures Harmless(s, events, p)
    decreases |events|
  {
    hide Enabled, Next;
    if events != [] {
      assert events[0] in events && forall e :: e in events[1..] ==> e in events;
      NoDropsHarmless(Next(s, events[0], p), events[1..], p);
    }
  }

  lemma InvStays(s: State, p: Policy)
    requires OrderInv(s)
    ensures StaysInOrder(s, p)
  {
    hide OrderInv, InOrder, Legal, Run, Harmless;
    forall events | Legal(s, events, p) && Harmless(s, events, p) ensures InOrder(Run(s, events, p)) {
      RunKeepsOrder(s, events, p);
      OrderOfInv(Run(s, events, p));
    }
  }

  lemma ReachedBreaks(s: State, t: State, p: Policy)
    requires Reaches(s, t, p) && !InOrder(t)
    ensures !StaysInOrder(s, p)
  {
    hide InOrder, Legal, Run, Harmless;
    var events :| Legal(s, events, p) && NoDrops(events) && Run(s, events, p) == t;
    NoDropsHarmless(s, events, p);
  }

  /** A send that gives up is harmless exactly when everything in its frame has taken effect. */
  lemma GiveUpExactly(s: State, p: Policy)
    requires OrderInv(s) && FlowInv(s) && !s.halted && !p.afterSend && Enabled(s, GiveUp, p)
    ensures StaysInOrder(Next(s, GiveUp, p), p) <==> Members(s.batch) <= s.receipts
  {
    hide Closed, InOrder, StaysInOrder, SessionsOk;
    var s' := Next(s, GiveUp, p);
    if Members(s.batch) <= s.receipts {
      StepKeepsOrder(s, GiveUp, p);
      InvStays(s', p);
    } else {
      var x :| x in Members(s.batch) && x !in s.receipts;
      NotQueuedTwice(s, x);
      var t := Overtaken(s', x, p);
      ReachedBreaks(s', t, p);
    }
  }

  lemma NotQueuedTwice(s: State, x: Op)
    requires FlowInv(s) && x in s.batch
    ensures x !in s.queue && x !in s.waiting && x < |s.log|
  {
    var all := s.batch + s.queue;
    var i :| 0 <= i < |s.batch| && s.batch[i] == x;
    assert all[i] == x && x in all;
    forall j | 0 <= j < |s.queue| ensures s.queue[j] != x { assert all[|s.batch| + j] == s.queue[j]; }
  }

  /** A record dropped on its way into the queue is harmless exactly when it has taken effect. */
  lemma DropExactly(s: State, op: Op, p: Policy)
    requires OrderInv(s) && FlowInv(s) && !s.halted && !p.afterDrop && Enabled(s, Drop(op), p)
    ensures StaysInOrder(Next(s, Drop(op), p), p) <==> op in s.receipts
  {
    hide Closed, InOrder, StaysInOrder, SessionsOk;
    var s' := Next(s, Drop(op), p);
    if op in s.receipts {
      StepKeepsOrder(s, Drop(op), p);
      InvStays(s', p);
    } else {
      InPipeline(s, op);
      var t := Overtaken(s', op, p);
      ReachedBreaks(s', t, p);
    }
  }

  lemma InPipeline(s: State, op: Op)
    requires FlowInv(s) && op in s.waiting
    ensures op !in s.batch && op !in s.queue && op < |s.log| && forall y :: y in s.batch ==> y < |s.log|
  {
    var all := s.batch + s.queue;
    assert forall y :: y in s.batch || y in s.queue ==> y in all;
  }

  // ---- The program as it is ----

  lemma {:induction false} CodeNeverHalts(s: State, events: seq<Event>)
    requires !s.halted && Legal(s, events, CODE)
    ensures !Run(s, events, CODE).halted
    decreases |events|
  {
    if events != [] { CodeNeverHalts(Next(s, events[0], CODE), events[1..]); }
  }

  lemma ReachableInv(s: State, events: seq<Event>)
    requires Init(s) && Legal(s, events, CODE) && Harmless(s, events, CODE)
    ensures var t := Run(s, events, CODE); OrderInv(t) && FlowInv(t) && !t.halted
  {
    assert FlowInv(s);
    hide OrderInv, FlowInv, Legal, Run, Harmless;
    InitOrder(s);
    RunKeepsOrder(s, events, CODE);
    RunKeepsFlow(s, events, CODE);
    CodeNeverHalts(s, events);
  }

  /**
    The program goes on sending after a drop. The order of effects is safe from then on if and only if
    what was dropped had already taken effect on the replica.
    */
  lemma CodeDropsExactly(s: State, events: seq<Event>, e: Event)
    requires Init(s) && Legal(s, events, CODE) && Harmless(s, events, CODE)
    requires Enabled(Run(s, events, CODE), e, CODE) && (e.GiveUp? || e.Drop?)
    ensures var t := Run(s, events, CODE);
            StaysInOrder(Next(t, e, CODE), CODE) <==>
              if e.GiveUp? then Members(t.batch) <= t.receipts else e.op in t.receipts
  {
    hide OrderInv, FlowInv, StaysInOrder, Init, Legal, Run, Harmless;
    ReachableInv(s, events);
    if e.GiveUp? { GiveUpExactly(Run(s, events, CODE), CODE); } else { DropExactly(Run(s, events, CODE), e.op, CODE); }
  }

  // ---- Halting after a drop ----

  /** No run ever shows effects of one metric out of the primary's order. */
  ghost predicate AlwaysInOrder(p: Policy) {
    forall s, events :: Init(s) && Legal(s, events, p) ==> InOrder(Run(s, events, p))
  }

  /** One operation is on its way when shutdown begins. */
  function Stopping(): State {
    EMPTY.(log := [Entry(7, {0})], outbox := {0}, up := true, stopping := true, queue := [0])
  }

  lemma StoppingRun(p: Policy) returns (events: seq<Event>)
    ensures Legal(EMPTY, events, p) && Run(EMPTY, events, p) == Stopping()
  {
    hide Legal, Run;
    events := Queued(p);
    Extend(EMPTY, events, Stop, p);
    events := events + [Stop];
  }

  lemma BreaksOrder(p: Policy, events: seq<Event>, x: Op)
    requires Legal(EMPTY, events, p)
    requires var s := Run(EMPTY, events, p);
             && s.up && !s.halted && x < |s.log| && s.effects == [] && s.receipts == {} && s.batch == []
             && x !in s.queue && x !in s.waiting
    ensures !AlwaysInOrder(p)
  {
    hide Legal, Run, InOrder;
    var s := Run(EMPTY, events, p);
    var t := Overtaken(s, x, p);
    var more :| Legal(s, more, p) && NoDrops(more) && Run(s, more, p) == t;
    Append(EMPTY, events, more, p);
    assert Init(EMPTY);
  }

  /** A worker that goes on after a send gave up sends the later record. */
  lemma GoesOnAfterSend(p: Policy)
    requires !p.afterSend
    ensures !AlwaysInOrder(p)
  {
    hide Legal, Run, AlwaysInOrder;
    var events := StoppingRun(p);
    Extend(EMPTY, events, Take(1), p);
    events := events + [Take(1)];
    assert [0][1..] == [];
    Extend(EMPTY, events, GiveUp, p);
    events := events + [GiveUp];
    BreaksOrder(p, events, 0);
  }

  /** So does one whose fan-out dropped the earlier record and passed on the later one. */
  lemma GoesOnAfterDrop(p: Policy)
    requires !p.afterDrop
    ensures !AlwaysInOrder(p)
  {
    hide Legal, Run, AlwaysInOrder;
    var events := StoppingRun(p);
    Extend(EMPTY, events, Put(Entry(7, {0})), p);
    events := events + [Put(Entry(7, {0}))];
    Extend(EMPTY, events, Drop(1), p);
    events := events + [Drop(1)];
    BreaksOrder(p, events, 1);
  }

  lemma {:induction false} HaltingIsHarmless(s: State, events: seq<Event>, p: Policy)
    requires p.afterSend && p.afterDrop && Legal(s, events, p)
    ensures Harmless(s, events, p)
    decreases |events|
  {
    hide Enabled, Next;
    if events != [] { HaltingIsHarmless(Next(s, events[0], p), events[1..], p); }
  }

  /**
    First effects of every metric follow the primary's order in all runs if and only if a record dropped
    during shutdown, by a send that gives up or on the way into the queue, stops later sends.
    */
  lemma InOrderExactlyIfHalting(p: Policy)
    ensures AlwaysInOrder(p) <==> p.afterSend && p.afterDrop
  {
    hide Legal, Run, Harmless, InOrder, Init;
    if p.afterSend && p.afterDrop {
      forall s, events | Init(s) && Legal(s, events, p) ensures InOrder(Run(s, events, p)) {
        HaltingIsHarmless(s, events, p);
        HarmlessRunsInOrder(s, events, p);
      }
    } else if !p.afterSend {
      GoesOnAfterSend(p);
    } else {
      GoesOnAfterDrop(p);
    }
  }
}
