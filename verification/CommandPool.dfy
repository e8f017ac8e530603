/**
  One mutating command of the Kotlin client's CommandPool: the caller, who may time out or cancel at
  any moment, races the I/O worker that dials, marks the request as sent and writes it.
  */
module CommandPool {
  import opened Options

  datatype Status = NotSent | Unknown | ResponseReceived

  /** Where the I/O worker stands; a socket it works on is a local reference of its own. */
  datatype Worker =
    | Absent                  // still waiting for a connection of the pool
    | Queued                  // handed to the dispatcher
    | Started                 // past the check under operationLock
    | Dialing(current: nat)   // connecting and authenticating
    | Dialed(current: nat)    // dial returned a transport
    | Checked(current: nat)   // found the request not cancelled
    | Armed(current: nat)     // has set `sent`, is writing or waiting for the reply
    | Ended(ok: bool)         // the block returned or threw
    | Finished(ok: bool)      // the lease is back in the pool

  /** The cancellation handler holds operationLock while it is `Marked`. */
  datatype Handler = NotRun | Marked(close: bool) | Handled

  datatype State = State(
    worker: Worker, handler: Handler, cancelled: bool, workerStarted: bool, finished: bool,
    sent: bool, received: bool,
    socket: Option<nat>, transport: Option<nat>, closed: set<nat>, permanentlyClosed: bool,
    bytes: nat, verdict: Option<Status>)

  datatype Event =
    | Dispatch | Mark | Invalidate | Start(expired: bool) | OpenDial(created: nat) | DialFail | DialDone
    | Check | GiveUp | Arm | Write(count: nat) | WriteFail | Reply(rejected: bool) | Finish | Close | Report

  predicate Holding(w: Worker) { w.Dialing? || w.Dialed? || w.Checked? || w.Armed? }

  /** Connection.invalidate. */
  function Invalidated(s: State): State {
    s.(socket := None, transport := None,
    closed := if s.socket.Some? then s.closed + {s.socket.value} else s.closed)
  }

  predicate Enabled(s: State, e: Event) {
    match e
    case Dispatch => s.worker.Absent? && s.verdict.None?
    case Mark => s.handler.NotRun? && !s.worker.Absent?
    case Invalidate => s.handler.Marked?
    case Start(_) => s.worker.Queued? && !s.handler.Marked?
    case OpenDial(created) => s.worker.Started? && created !in s.closed && s.socket != Some(created)
      && s.transport != Some(created)
    case DialFail => s.worker.Dialing?
    case DialDone => s.worker.Dialing?
    case Check => s.worker.Dialed?
    case GiveUp => s.worker.Checked?
    case Arm => s.worker.Checked?
    case Write(_) => s.worker.Armed?
    case WriteFail => s.worker.Armed?
    case Reply(_) => s.worker.Armed? && s.worker.current !in s.closed
    case Finish => s.worker.Ended? && !s.handler.Marked?
    case Close => true
    case Report => s.verdict.None? && (s.worker.Absent? || s.handler.Handled? || (s.worker.Finished? && !s.worker.ok))
  }

  function Next(s: State, e: Event): State
    requires Enabled(s, e)
  {
    match e
    case Dispatch => s.(worker := Queued)
    case Mark => s.(cancelled := true, handler := Marked(!s.finished && s.workerStarted))
    case Invalidate => (if s.handler.close then Invalidated(s) else s).(handler := Handled)
    case Start(expired) =>
      if s.cancelled || expired then s.(worker := Ended(false)) else s.(worker := Started, workerStarted := true)
    case OpenDial(created) =>
      if s.permanentlyClosed || s.cancelled then s.(worker := Ended(false))
      else if s.transport.Some? then s.(worker := Dialed(s.transport.value))
      else s.(worker := Dialing(created), socket := Some(created))
    case DialFail => Invalidated(s).(worker := Ended(false))
    case DialDone =>
      if s.socket != Some(s.worker.current) || s.permanentlyClosed || s.cancelled
      then Invalidated(s).(worker := Ended(false))
      else s.(worker := Dialed(s.worker.current), transport := s.socket)
    case Check => if s.cancelled then s.(worker := Ended(false)) else s.(worker := Checked(s.worker.current))
    case GiveUp => s.(worker := Ended(false))
    case Arm => s.(worker := Armed(s.worker.current), sent := true)
    case Write(count) =>
      if s.worker.current in s.closed then Invalidated(s).(worker := Ended(false)) else s.(bytes := s.bytes + count)
    case WriteFail => Invalidated(s).(worker := Ended(false))
    case Reply(rejected) => s.(worker := Ended(!rejected), received := s.received || !rejected)
    case Finish => s.(worker := Finished(s.worker.ok), finished := true)
    case Close => Invalidated(s).(permanentlyClosed := true)
    case Report => s.(verdict := Some(if !s.sent then NotSent else if s.received then ResponseReceived else Unknown))
  }

  /** A connection from the pool: idle, with or without an authenticated socket. */
  predicate Init(s: State) {
    && s.worker.Absent? && s.handler.NotRun? && !s.cancelled && !s.workerStarted && !s.finished && !s.sent
       && !s.received
    && s.transport == s.socket && s.bytes == 0 && s.verdict.None? && (s.socket.Some? ==> s.socket.value !in s.closed)
  }

  ghost predicate Inv(s: State) {
    && (s.transport.Some? ==> s.transport == s.socket)
    && (Holding(s.worker) ==> s.worker.current in s.closed || s.socket == Some(s.worker.current))
    && (s.workerStarted <== s.worker.Started? || Holding(s.worker))
    && (s.worker.Absent? || s.worker.Queued? ==> !s.workerStarted)
    && s.finished == s.worker.Finished?
    && s.cancelled == !s.handler.NotRun?
    && (s.handler.Marked? && (s.worker.Started? || Holding(s.worker)) ==> s.handler.close)
    // once the handler is through, whatever socket the worker still holds is closed
    && (s.handler.Handled? && Holding(s.worker) ==> s.worker.current in s.closed)
    && (s.bytes > 0 ==> s.sent)
    && (s.worker.Armed? ==> s.sent)
    && (s.sent ==> s.worker.Armed? || s.worker.Ended? || s.worker.Finished?)
    && (s.verdict == Some(NotSent) ==>
          s.bytes == 0 && (s.worker.Absent? || s.worker.Finished? || s.handler.Handled?))
    && (s.verdict.Some? && s.verdict != Some(NotSent) ==> s.sent)
    && ((s.worker.Ended? || s.worker.Finished?) && s.worker.ok ==> s.received)
    && (s.received ==> s.sent)
  }

  predicate Dials(e: Event) { e.Start? || e.OpenDial? || e.DialFail? || e.DialDone? || e.Check? || e.GiveUp? }

  predicate Writes(e: Event) { e.Arm? || e.Write? || e.WriteFail? || e.Reply? || e.Finish? }

  predicate Cancels(e: Event) { e.Mark? || e.Invalidate? || e.Close? }

  lemma CancelKeepsInv(s: State, e: Event)
    requires Inv(s) && Enabled(s, e) && Cancels(e)
    ensures Inv(Next(s, e)) && (s.verdict.Some? ==> Next(s, e).verdict == s.verdict)
  {}

  lemma ReportKeepsInv(s: State, e: Event)
    requires Inv(s) && Enabled(s, e) && !Dials(e) && !Writes(e) && !Cancels(e)
    ensures Inv(Next(s, e)) && (s.verdict.Some? ==> Next(s, e).verdict == s.verdict)
  {}

  lemma DialKeepsInv(s: State, e: Event)
    requires Inv(s) && Enabled(s, e) && Dials(e)
    ensures Inv(Next(s, e)) && (s.verdict.Some? ==> Next(s, e).verdict == s.verdict)
  {}

  lemma WriteKeepsInv(s: State, e: Event)
    requires Inv(s) && Enabled(s, e) && Writes(e)
    ensures Inv(Next(s, e)) && (s.verdict.Some? ==> Next(s, e).verdict == s.verdict)
  {}

  lemma StepKeepsInv(s: State, e: Event)
    requires Inv(s) && Enabled(s, e)
    ensures Inv(Next(s, e)) && (s.verdict.Some? ==> Next(s, e).verdict == s.verdict)
  {
    hide Inv, Enabled, Next;
    if Dials(e) {
      DialKeepsInv(s, e);
    } else if Writes(e) {
      WriteKeepsInv(s, e);
    } else if Cancels(e) {
      CancelKeepsInv(s, e);
    } else {
      ReportKeepsInv(s, e);
    }
  }

  predicate Legal(s: State, events: seq<Event>)
    decreases |events|
  {
    events == [] || (Enabled(s, events[0]) && Legal(Next(s, events[0]), events[1..]))
  }

  function Run(s: State, events: seq<Event>): State
    requires Legal(s, events)
    decreases |events|
  {
    if events == [] then s else Run(Next(s, events[0]), events[1..])
  }

  lemma {:induction false} RunKeepsInv(s: State, events: seq<Event>)
    requires Inv(s) && Legal(s, events)
    ensures Inv(Run(s, events))
    decreases |events|
  {
    hide Inv, Enabled, Next;
    if events != [] {
      StepKeepsInv(s, events[0]);
      RunKeepsInv(Next(s, events[0]), events[1..]);
    }
  }

  lemma {:induction false} VerdictStays(s: State, events: seq<Event>)
    requires Inv(s) && Legal(s, events) && s.verdict.Some?
    ensures Run(s, events).verdict == s.verdict
    decreases |events|
  {
    hide Inv, Enabled, Next;
    if events != [] {
      StepKeepsInv(s, events[0]);
      VerdictStays(Next(s, events[0]), events[1..]);
    }
  }

  /**
    A NOT_SENT verdict is truthful: no byte of the command has reached the socket when it is given, and
    none does afterwards, whatever the worker still does.
    */
  lemma NotSentIsTruthful(s: State, before: seq<Event>, after: seq<Event>)
    requires Init(s) && Legal(s, before) && Run(s, before).verdict == Some(NotSent)
    requires Legal(Run(s, before), after)
    ensures Run(s, before).bytes == 0
    ensures Run(Run(s, before), after).bytes == 0
  {
    RunKeepsInv(s, before);
    RunKeepsInv(Run(s, before), after);
    VerdictStays(Run(s, before), after);
  }

  /** The other way round: a verdict that may stand for sent bytes is only given once `sent` was set. */
  lemma UnknownWasArmed(s: State, events: seq<Event>)
    requires Init(s) && Legal(s, events) && Run(s, events).verdict.Some?
    ensures Run(s, events).verdict != Some(NotSent) ==> Run(s, events).sent
    ensures Run(s, events).bytes > 0 ==> Run(s, events).verdict != Some(NotSent)
  {
    RunKeepsInv(s, events);
  }

  // ---- The worker comes back ----

  /** How many steps the worker and the handler have at most before them, writes aside. */
  function Ahead(s: State): nat {
    (match s.worker
     case Absent => 0
     case Queued => 7
     case Started => 6
     case Dialing(_) => 5
     case Dialed(_) => 4
     case Checked(_) => 3
     case Armed(_) => 2
     case Ended(_) => 1
     case Finished(_) => 0)
    + if s.handler.Marked? then 1 else 0
  }

  predicate Moves(e: Event) { Dials(e) || e.Arm? || e.WriteFail? || e.Reply? || e.Finish? || e.Invalidate? }

  lemma MoveLowers(s: State, e: Event)
    requires Enabled(s, e) && Moves(e)
    ensures Ahead(Next(s, e)) < Ahead(s)
  {}

  lemma {:induction false} Above(used: set<nat>) returns (n: nat)
    ensures forall x :: x in used ==> x < n
    decreases used
  {
    if used == {} {
      n := 0;
    } else {
      var x :| x in used;
      n := Above(used - {x});
      assert used == (used - {x}) + {x};
      n := if x < n then n else x + 1;
    }
  }

  /** Neither can get stuck: the handler holds the lock only for a step, and every dial gets a socket. */
  lemma CanMove(s: State) returns (e: Event)
    requires Ahead(s) > 0
    ensures Enabled(s, e) && Moves(e)
  {
    if s.handler.Marked? { return Invalidate; }
    match s.worker
    case Queued => e := Start(false);
    case Started =>
      var n := Above(s.closed + (if s.socket.Some? then {s.socket.value} else {})
                     + if s.transport.Some? then {s.transport.value} else {});
      e := OpenDial(n);
    case Dialing(_) => e := DialDone;
    case Dialed(_) => e := Check;
    case Checked(_) => e := Arm;
    case Armed(_) => e := WriteFail;
    case Ended(_) => e := Finish;
  }

  lemma {:induction false} MovesEnd(s: State) returns (steps: seq<Event>)
    requires Inv(s)
    ensures Legal(s, steps) && |steps| <= Ahead(s) && forall e :: e in steps ==> Moves(e)
    ensures Inv(Run(s, steps)) && Ahead(Run(s, steps)) == 0
    decreases Ahead(s)
  {
    hide Inv, Enabled, Next, Moves, Ahead;
    if Ahead(s) == 0 {
      steps := [];
    } else {
      var e := CanMove(s);
      MoveLowers(s, e);
      StepKeepsInv(s, e);
      var rest := MovesEnd(Next(s, e));
      steps := [e] + rest;
      assert steps[1..] == rest;
    }
  }

  /**
    From every reachable state at most eight steps of the worker and the handler return the connection to
    the pool, and the command then has succeeded with an answer, has its verdict or can be given one.
    */
  lemma WorkerComesBack(s: State, before: seq<Event>) returns (steps: seq<Event>)
    requires Init(s) && Legal(s, before)
    ensures Legal(Run(s, before), steps) && |steps| <= 8 && forall e :: e in steps ==> Moves(e)
    ensures var t := Run(Run(s, before), steps);
            && (t.worker.Absent? || t.worker.Finished?) && !t.handler.Marked?
            && ((t.worker == Finished(true) && t.received && t.sent) || t.verdict.Some? || Enabled(t, Report))
  {
    hide Legal, Run;
    RunKeepsInv(s, before);
    steps := MovesEnd(Run(s, before));
  }

  // ---- Both verdicts occur ----

  lemma {:induction false} Extend(s: State, done: seq<Event>, e: Event)
    requires Legal(s, done) && Enabled(Run(s, done), e)
    ensures Legal(s, done + [e]) && Run(s, done + [e]) == Next(Run(s, done), e)
    decreases |done|
  {
    hide Enabled, Next;
    if done == [] {
      assert ([] + [e])[1..] == [];
    } else {
      assert (done + [e])[1..] == done[1..] + [e];
      Extend(Next(s, done[0]), done[1..], e);
    }
  }

  const IDLE := State(Absent, NotRun, false, false, false, false, false, None, None, {}, false, 0, None)

  /** A command on a new connection, before its check. */
  lemma Connects() returns (events: seq<Event>)
    ensures Legal(IDLE, events)
    ensures Run(IDLE, events)
            == IDLE.(worker := Dialed(1), workerStarted := true, socket := Some(1), transport := Some(1))
  {
    hide Legal, Run;
    events := [];
    assert Legal(IDLE, events) && Run(IDLE, events) == IDLE by { Nothing(IDLE); }
    Extend(IDLE, events, Dispatch);
    events := events + [Dispatch];
    Extend(IDLE, events, Start(false));
    events := events + [Start(false)];
    Extend(IDLE, events, OpenDial(1));
    events := events + [OpenDial(1)];
    Extend(IDLE, events, DialDone);
    events := events + [DialDone];
  }

  /** Its bytes are on their way. */
  lemma BytesLeave() returns (events: seq<Event>)
    ensures Legal(IDLE, events)
    ensures Run(IDLE, events)
            == IDLE.(worker := Armed(1), workerStarted := true, sent := true, socket := Some(1),
                     transport := Some(1), bytes := 7)
  {
    hide Legal, Run;
    events := Connects();
    Extend(IDLE, events, Check);
    events := events + [Check];
    Extend(IDLE, events, Arm);
    events := events + [Arm];
    Extend(IDLE, events, Write(7));
    events := events + [Write(7)];
  }

  lemma Nothing(s: State)
    ensures Legal(s, []) && Run(s, []) == s
  {}

  /** If the connection then breaks the verdict is UNKNOWN. */
  lemma BrokenIsUnknown() returns (events: seq<Event>)
    ensures Init(IDLE) && Legal(IDLE, events)
    ensures Run(IDLE, events).bytes > 0 && Run(IDLE, events).verdict == Some(Unknown)
  {
    hide Legal, Run;
    events := BytesLeave();
    Extend(IDLE, events, WriteFail);
    events := events + [WriteFail];
    Extend(IDLE, events, Finish);
    events := events + [Finish];
    Extend(IDLE, events, Report);
    events := events + [Report];
  }

  /** A caller who cancels before the request is armed gets NOT_SENT, and the worker never writes. */
  lemma CancelledIsNotSent() returns (events: seq<Event>)
    ensures Init(IDLE) && Legal(IDLE, events) && Run(IDLE, events).verdict == Some(NotSent)
  {
    hide Legal, Run;
    events := [];
    assert Legal(IDLE, events) && Run(IDLE, events) == IDLE by { Nothing(IDLE); }
    Extend(IDLE, events, Dispatch);
    events := events + [Dispatch];
    Extend(IDLE, events, Mark);
    events := events + [Mark];
    Extend(IDLE, events, Invalidate);
    events := events + [Invalidate];
    Extend(IDLE, events, Report);
    events := events + [Report];
  }
}
