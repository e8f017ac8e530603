/** The send loop makes progress: the oldest pending batch can always go out and be confirmed. */
module JournalProgress {
  import opened Options
  import opened Sequences
  import opened Lookahead
  import opened JournalOrder
  import J = Journal

  lemma {:induction false} Extend(s: State, done: seq<Event>, ev: Event)
    requires Legal(s, done) && QuietRun(s, done) && Enabled(Run(s, done), ev) && QuietStep(Run(s, done), ev)
    ensures Legal(s, done + [ev]) && QuietRun(s, done + [ev]) && Run(s, done + [ev]) == Next(Run(s, done), ev)
    decreases |done|
  {
    hide Enabled, Next, QuietStep;
    if done == [] {
      assert [] + [ev] == [ev] && [ev][1..] == [];
      assert Legal(Next(s, ev), []) && QuietRun(Next(s, ev), []);
    } else {
      assert (done + [ev])[1..] == done[1..] + [ev];
      Extend(Next(s, done[0]), done[1..], ev);
    }
  }

  /** A scan that nothing overlaps fills the lookahead with the smallest names. */
  lemma ScanSteps(s: State) returns (end: Event)
    requires Enabled(s, BeginScan)
    ensures var u := Next(s, BeginScan);
            && QuietStep(s, BeginScan) && Enabled(u, end) && QuietStep(u, end)
            && Next(u, end) == s.(cache := Next(u, end).cache)
            && (PendingOrders(s.j.disk) != {} ==> Next(u, end).cache != [])
  {
    hide J.Enabled, J.Next, Smallest, Ascends, PendingOrders;
    var all, kept := Scan(PendingOrders(s.j.disk));
    end := EndScan(all, kept);
  }

  lemma Scan(names: set<nat>) returns (all: seq<nat>, kept: seq<nat>)
    ensures Returned(names, {}, all) && Smallest(all, kept, LOOKAHEAD) && (names != {} ==> kept != [])
  {
    all := SortedSet(names);
    kept := if |all| < LOOKAHEAD then all else all[..LOOKAHEAD];
    AscendsDistinct(all);
    FrontIsSmallest(all, kept);
  }

  lemma FrontIsSmallest(all: seq<nat>, kept: seq<nat>)
    requires Ascends(all) && kept == if |all| < LOOKAHEAD then all else all[..LOOKAHEAD]
    ensures Smallest(all, kept, LOOKAHEAD)
  {
    assert forall k :: 0 <= k < |kept| ==> kept[k] == all[k] && kept[k] in kept;
    forall o | o in all && o !in kept ensures |kept| == LOOKAHEAD && forall c :: c in kept ==> c < o {
      var i :| 0 <= i < |all| && all[i] == o;
      forall c | c in kept ensures c < o { var k :| 0 <= k < |kept| && kept[k] == c; }
    }
  }

  /** With a filled lookahead: claim, transmit, confirm. */
  lemma SendSteps(s: State, o: nat)
    requires Inv(s) && s.j.phase.Up? && s.j.sender.Idle? && s.scan.NoScan? && s.cache != []
    requires IsOldest(s.j.disk, o) && !s.j.disk[J.File(o, J.Pending)].torn
    ensures Enabled(s, ClaimHead)
    ensures var t := Next(s, ClaimHead);
            && Enabled(t, Step(J.Transmit))
            && var u := Next(t, Step(J.Transmit));
            && u.sent == s.sent + [BirthOf(s, o)] && Enabled(u, Step(J.Confirm))
            && var v := Next(u, Step(J.Confirm));
            && v.sent == u.sent && J.File(o, J.Done) in v.j.disk && J.File(o, J.Pending) !in v.j.disk
            && forall id :: id in s.j.disk[J.File(o, J.Pending)].records ==> id in v.j.confirmed
  {
    hide J.Inv, J.FlightOk, NamesOk, HistoryOk;
    CacheHead(s.j.disk, s.cache);
    assert s.cache[0] == o;
  }

  /**
    From every state that quiet scans lead to, with the sender idle and no scan under way, the oldest
    pending file can be sent next and confirmed, again with quiet scans only.
    */
  lemma OldestIsConfirmed(s: State, before: seq<Event>, o: nat) returns (events: seq<Event>)
    requires Init(s) && Legal(s, before) && QuietRun(s, before)
    requires var t := Run(s, before);
             && t.j.phase.Up? && t.j.sender.Idle? && t.scan.NoScan?
             && IsOldest(t.j.disk, o) && !t.j.disk[J.File(o, J.Pending)].torn
    ensures var t := Run(s, before);
            && Legal(t, events) && QuietRun(t, events)
            && Run(t, events).sent == t.sent + [BirthOf(t, o)]
            && forall id :: id in t.j.disk[J.File(o, J.Pending)].records ==> id in Run(t, events).j.confirmed
  {
    hide Inv, Legal, Run, QuietRun, Enabled, Next, QuietStep;
    InitInv(s);
    RunKeepsInv(s, before);
    var t := Run(s, before);
    events := [];
    NoEvents(t);
    var ready := t;
    if t.cache == [] {
      CanScan(t, o);
      var end := ScanSteps(t);
      StepKeepsInv(t, BeginScan);
      StepKeepsInv(Next(t, BeginScan), end);
      Extend(t, events, BeginScan);
      events := events + [BeginScan];
      Extend(t, events, end);
      events := events + [end];
      ready := Next(Next(t, BeginScan), end);
    }
    SendSteps(ready, o);
    SendsAreQuiet(ready);
    Extend(t, events, ClaimHead);
    events := events + [ClaimHead];
    SendsAreQuiet(Next(ready, ClaimHead));
    Extend(t, events, Step(J.Transmit));
    events := events + [Step(J.Transmit)];
    SendsAreQuiet(Next(Next(ready, ClaimHead), Step(J.Transmit)));
    Extend(t, events, Step(J.Confirm));
    events := events + [Step(J.Confirm)];
  }

  lemma NoEvents(t: State)
    ensures Legal(t, []) && QuietRun(t, []) && Run(t, []) == t
  {}

  lemma CanScan(t: State, o: nat)
    requires t.j.phase.Up? && t.j.sender.Idle? && t.scan.NoScan? && t.cache == [] && IsPending(t.j.disk, o)
    ensures Enabled(t, BeginScan) && PendingOrders(t.j.disk) != {}
  {
    ScanBegins(t.j.disk);
    assert o in PendingOrders(t.j.disk);
  }

  lemma SendsAreQuiet(s: State)
    ensures QuietStep(s, ClaimHead) && QuietStep(s, Step(J.Transmit)) && QuietStep(s, Step(J.Confirm))
  {}
}
