/**
  The order in which journal files are sent: the journal protocol together with the send loop's bounded
  lookahead, whose scan of the directory overlaps with sealing.
  */
module JournalOrder {
  import opened Options
  import opened Sequences
  import opened Lookahead
  import J = Journal

  datatype Scan = NoScan | Scanning(before: set<nat>, sealed: set<nat>)

  /** `births` numbers the files in the order of their creation; `sent` lists the files transmitted so far by it. */
  datatype State = State(j: J.State, cache: seq<nat>, scan: Scan, births: map<nat, nat>, created: nat, sent: seq<nat>)

  datatype Event =
    | Step(e: J.Event)   // everything but taking a pending file
    | BeginScan | EndScan(listing: seq<nat>, kept: seq<nat>) | ClaimHead | SetAsideHead

  ghost predicate Enabled(s: State, ev: Event) {
    match ev
    case Step(e) =>
      && J.Enabled(s.j, e) && !e.Claim? && !e.Unreadable?
      // recovery visits every open file before the journal starts
      && (e.Started? ==> forall f :: f in s.j.disk ==> !f.stage.Open?)
    case BeginScan => s.j.phase.Up? && s.j.sender.Idle? && s.scan.NoScan? && s.cache == []
    case EndScan(listing, kept) =>
      s.scan.Scanning? && Returned(s.scan.before, s.scan.sealed, listing) && Smallest(listing, kept, LOOKAHEAD)
    case ClaimHead => s.scan.NoScan? && s.cache != [] && J.Enabled(s.j, J.Claim(s.cache[0]))
    case SetAsideHead => s.scan.NoScan? && s.cache != [] && J.Enabled(s.j, J.Unreadable(s.cache[0]))
  }

  function PendingOrders(d: J.Disk): set<nat> { set f | f in d && f.stage.Pending? :: f.order }

  function BirthOf(s: State, o: nat): nat { if o in s.births then s.births[o] else 0 }

  ghost function Next(s: State, ev: Event): State
    requires Enabled(s, ev)
  {
    match ev
    case Step(e) =>
      var t := s.(j := J.Next(s.j, e));
      if e.Crash? then t.(cache := [], scan := NoScan)
      else if e.NotSent? then t.(cache := [])
      else if e.Create? then t.(births := s.births[e.order := s.created], created := s.created + 1)
      else if e.Transmit? then t.(sent := s.sent + [BirthOf(s, s.j.sender.order)])
      else if e.Seal? && s.scan.Scanning? then t.(scan := s.scan.(sealed := s.scan.sealed + {s.j.active.value}))
      else t
    case BeginScan => s.(scan := Scanning(PendingOrders(s.j.disk), {}))
    case EndScan(_, kept) => s.(cache := kept, scan := NoScan)
    case ClaimHead => s.(j := J.Next(s.j, J.Claim(s.cache[0])), cache := s.cache[1..])
    case SetAsideHead => s.(j := J.Next(s.j, J.Unreadable(s.cache[0])), cache := s.cache[1..])
  }

  ghost predicate Init(s: State) {
    J.Init(s.j) && s.cache == [] && s.scan.NoScan? && s.births == map[] && s.created == 0 && s.sent == []
  }

  // ---- What may still be transmitted ----

  predicate IsLive(j: J.State, o: nat) {
    || J.File(o, J.Open) in j.disk || J.File(o, J.Pending) in j.disk
    || j.sender == J.Claimed(o, false) || j.rebuilding == Some(o)
  }

  /** Live files are numbered in name order, and an open or recovered one is the newest. */
  ghost predicate NamesOk(s: State) {
    && (forall o :: IsLive(s.j, o) ==> o in s.births && s.births[o] < s.created)
    && (forall o, p :: IsLive(s.j, o) && IsLive(s.j, p) && o < p ==> BirthOf(s, o) < BirthOf(s, p))
    && (forall o, p :: J.File(o, J.Open) in s.j.disk && IsLive(s.j, p) ==> p <= o)
    && (forall o, p :: s.j.rebuilding == Some(o) && IsLive(s.j, p) ==> p <= o)
    && (forall o: nat :: s.j.phase.Up? && J.File(o, J.Open) in s.j.disk ==> s.j.active == Some(o))
    && (forall o, p :: s.j.sender == J.Claimed(o, false) && IsLive(s.j, p) ==> o <= p)
  }

  ghost predicate HistoryOk(s: State) {
    && Ascends(s.sent) && (forall b :: b in s.sent ==> b < s.created)
    && (forall o, b :: IsLive(s.j, o) && b in s.sent ==> b < BirthOf(s, o))
  }

  ghost predicate CacheInv(s: State) {
    && CacheOk(s.j.disk, s.cache) && (s.j.phase.Up? || s.cache == [])
    && (s.scan.Scanning? ==>
          s.j.phase.Up? && s.j.sender.Idle? && s.cache == [] && ScanOf(s.j.disk, s.scan.before, s.scan.sealed))
  }

  ghost predicate Inv(s: State) { J.Inv(s.j) && J.FlightOk(s.j) && NamesOk(s) && HistoryOk(s) && CacheInv(s) }

  /** The scan that ends here was quiet. */
  ghost predicate QuietStep(s: State, ev: Event) {
    ev.EndScan? && s.scan.Scanning? ==> Quiet(s.scan.before, s.scan.sealed)
  }

  // ---- Steps ----

  lemma LiveShrinks(j: J.State, e: J.Event, o: nat)
    requires J.Enabled(j, e) && !e.Create? && IsLive(J.Next(j, e), o)
    ensures IsLive(j, o)
  {}

  lemma OpenShrinks(j: J.State, e: J.Event, o: nat)
    requires J.Enabled(j, e) && !e.Create? && J.File(o, J.Open) in J.Next(j, e).disk
    ensures J.File(o, J.Open) in j.disk
  {}

  lemma RebuildFromOpen(j: J.State, e: J.Event, o: nat)
    requires J.Enabled(j, e) && J.Next(j, e).rebuilding == Some(o)
    ensures j.rebuilding == Some(o) || J.File(o, J.Open) in j.disk
  {}

  lemma SenderOf(j: J.State, e: J.Event, o: nat)
    requires J.Enabled(j, e) && !e.Claim? && J.Next(j, e).sender == J.Claimed(o, false)
    ensures j.sender == J.Claimed(o, false)
  {}

  lemma ActiveOf(j: J.State, e: J.Event)
    requires J.Enabled(j, e) && !e.Create? && J.Next(j, e).phase.Up?
    ensures e.Started? || (j.phase.Up? && (J.Next(j, e).active == j.active || e.Seal?))
  {}

  /** After sealing there is no open file, because the active one was the only one. */
  lemma NothingOpenAfterSeal(j: J.State, o: nat)
    requires J.Enabled(j, J.Event.Seal) && (forall p: nat :: J.File(p, J.Open) in j.disk ==> j.active == Some(p))
    ensures J.File(o, J.Open) !in J.Next(j, J.Event.Seal).disk
  {}

  lemma NamesKept(s: State, e: J.Event)
    requires NamesOk(s) && Enabled(s, Step(e)) && !e.Create?
    ensures NamesOk(s.(j := J.Next(s.j, e)))
  {
    hide IsLive, J.Enabled, J.Next;
    var t := s.(j := J.Next(s.j, e));
    forall o: nat | IsLive(t.j, o) ensures IsLive(s.j, o) { LiveShrinks(s.j, e, o); }
    forall o: nat | J.File(o, J.Open) in t.j.disk ensures J.File(o, J.Open) in s.j.disk { OpenShrinks(s.j, e, o); }
    forall o: nat, p: nat | t.j.rebuilding == Some(o) && IsLive(t.j, p) ensures p <= o { RebuildFromOpen(s.j, e, o); }
    forall o: nat, p: nat | t.j.sender == J.Claimed(o, false) && IsLive(t.j, p) ensures o <= p { SenderOf(s.j, e, o); }
    forall o: nat | t.j.phase.Up? && J.File(o, J.Open) in t.j.disk ensures t.j.active == Some(o) {
      ActiveOf(s.j, e);
      if e.Seal? { NothingOpenAfterSeal(s.j, o); }
      if e.Started? { StartedDisk(s.j); }
    }
  }

  lemma StartedDisk(j: J.State)
    requires J.Enabled(j, J.Started)
    ensures J.Next(j, J.Started).disk == j.disk
  {}

  lemma HistoryKept(s: State, e: J.Event)
    requires HistoryOk(s) && J.Enabled(s.j, e) && !e.Create?
    ensures HistoryOk(s.(j := J.Next(s.j, e)))
  {
    hide IsLive, J.Enabled, J.Next;
    var t := s.(j := J.Next(s.j, e));
    forall o: nat | IsLive(t.j, o) ensures IsLive(s.j, o) { LiveShrinks(s.j, e, o); }
  }

  /** Transmitting the claimed file: it is older than everything still live. */
  lemma TransmitKeepsHistory(s: State)
    requires J.Inv(s.j) && NamesOk(s) && HistoryOk(s) && J.Enabled(s.j, J.Transmit)
    ensures HistoryOk(Next(s, Step(J.Transmit)))
  {
    hide J.Inv, IsLive;
    var o, t := s.j.sender.order, Next(s, Step(J.Transmit));
    ClaimedIsLive(s.j);
    forall p: nat | IsLive(t.j, p) ensures IsLive(s.j, p) && p != o { ClaimedIsNotLive(s.j, p); }
    assert t.sent == s.sent + [BirthOf(s, o)] && t.births == s.births && t.created == s.created;
    assert s.j.sender == J.Claimed(o, false);
    hide J.Enabled, J.Next, Next;
    forall p: nat, b | IsLive(t.j, p) && b in t.sent ensures b < BirthOf(t, p) {
      assert BirthOf(t, p) == BirthOf(s, p) && o < p;
    }
    assert forall i :: 0 <= i < |s.sent| ==> s.sent[i] in s.sent;
    assert Ascends(t.sent);
    assert forall b :: b in t.sent ==> b < t.created;
  }

  lemma ClaimedIsLive(j: J.State)
    requires J.Enabled(j, J.Transmit)
    ensures j.sender.Claimed? && !j.sender.transmitted && IsLive(j, j.sender.order)
  {}

  lemma ClaimedIsNotLive(j: J.State, p: nat)
    requires J.Inv(j) && J.Enabled(j, J.Transmit) && IsLive(J.Next(j, J.Transmit), p)
    ensures IsLive(j, p) && p != j.sender.order
  {
    hide J.SentOk, J.KeptOk, J.OneOrder, J.Distinct;
  }

  lemma LiveAfterCreate(s: State, o: nat, p: nat)
    requires J.FlightOk(s.j) && J.Inv(s.j) && J.Enabled(s.j, J.Create(o))
    ensures IsLive(J.Next(s.j, J.Create(o)), p) <==> p == o || IsLive(s.j, p)
    ensures IsLive(s.j, p) ==> p < o
  {
    hide J.Inv;
    if IsLive(s.j, p) { LiveOnDisk(s.j, p, o); }
  }

  lemma CreateFacts(s: State, o: nat)
    requires NamesOk(s) && J.Inv(s.j) && J.Enabled(s.j, J.Create(o))
    ensures forall p: nat :: J.File(p, J.Open) in J.Next(s.j, J.Create(o)).disk ==> p == o
    ensures J.Next(s.j, J.Create(o)).rebuilding.None? && J.Next(s.j, J.Create(o)).active == Some(o)
    ensures J.Next(s.j, J.Create(o)).sender == s.j.sender
    ensures s.j.sender.Claimed? && !s.j.sender.transmitted ==> IsLive(s.j, s.j.sender.order)
  {
    hide J.DiskOk, J.SentOk, J.KeptOk;
  }

  lemma CreateKeepsNames(s: State, o: nat)
    requires J.FlightOk(s.j) && J.Inv(s.j) && NamesOk(s) && J.Enabled(s.j, J.Create(o))
    ensures NamesOk(Next(s, Step(J.Create(o))))
  {
    hide IsLive, J.Inv, J.FlightOk;
    var t := Next(s, Step(J.Create(o)));
    forall p: nat ensures (IsLive(t.j, p) <==> p == o || IsLive(s.j, p)) && (IsLive(s.j, p) ==> p < o) {
      LiveAfterCreate(s, o, p);
    }
    CreateFacts(s, o);
    hide J.Enabled, J.Next;
  }

  lemma CreateKeepsHistory(s: State, o: nat)
    requires J.FlightOk(s.j) && J.Inv(s.j) && NamesOk(s) && HistoryOk(s) && J.Enabled(s.j, J.Create(o))
    ensures HistoryOk(Next(s, Step(J.Create(o))))
  {
    hide IsLive, J.Inv, J.FlightOk;
    var t := Next(s, Step(J.Create(o)));
    forall p: nat ensures (IsLive(t.j, p) <==> p == o || IsLive(s.j, p)) && (IsLive(s.j, p) ==> p < o) {
      LiveAfterCreate(s, o, p);
    }
    hide J.Enabled, J.Next;
  }

  lemma LiveOnDisk(j: J.State, p: nat, o: nat)
    requires J.FlightOk(j) && J.Inv(j) && J.Enabled(j, J.Create(o)) && IsLive(j, p)
    ensures p < o
  {
    hide J.DiskOk, J.SentOk, J.KeptOk;
  }

  predicate MovesPending(e: J.Event) { e.Seal? || e.NotSent? || e.MoveRebuild? || e.Claim? || e.Unreadable? }

  lemma PendingSame(j: J.State, e: J.Event, o: nat)
    requires J.Enabled(j, e) && !MovesPending(e)
    ensures IsPending(J.Next(j, e).disk, o) <==> IsPending(j.disk, o)
  {}

  lemma StaysUp(j: J.State, e: J.Event)
    requires J.Enabled(j, e) && !e.Crash?
    ensures j.phase.Up? ==>
            J.Next(j, e).phase.Up? && (e.Claim? || j.sender.Idle? ==> e.Claim? || J.Next(j, e).sender.Idle?)
    ensures e.MoveRebuild? ==> !j.phase.Up?
  {}

  lemma CacheKept(s: State, e: J.Event)
    requires CacheInv(s) && Enabled(s, Step(e)) && !MovesPending(e)
    ensures CacheInv(Next(s, Step(e)))
  {
    hide IsPending, J.Enabled, J.Next, CacheOk, ScanOf;
    var t := Next(s, Step(e));
    forall o: nat ensures IsPending(t.j.disk, o) <==> IsPending(s.j.disk, o) { PendingSame(s.j, e, o); }
    CacheSame(s.j.disk, t.j.disk, s.cache);
    if s.scan.Scanning? { OthersKeepScan(s.j.disk, t.j.disk, s.scan.before, s.scan.sealed); }
    if e.Crash? { EmptyCache(t.j.disk); } else { StaysUp(s.j, e); }
  }

  lemma CacheSame(d: J.Disk, d': J.Disk, cache: seq<nat>)
    requires CacheOk(d, cache) && forall o :: IsPending(d, o) <==> IsPending(d', o)
    ensures CacheOk(d', cache)
  {}

  lemma EmptyCache(d: J.Disk)
    ensures CacheOk(d, [])
  {}

  /** A sealed file is the newest pending one. */
  lemma SealPending(s: State, p: nat)
    requires NamesOk(s) && J.Enabled(s.j, J.Event.Seal)
    ensures var o, d := s.j.active.value, J.Next(s.j, J.Event.Seal).disk;
            (IsPending(d, p) <==> p == o || IsPending(s.j.disk, p)) && (IsPending(s.j.disk, p) ==> p <= o)
  {
    if IsPending(s.j.disk, p) { assert IsLive(s.j, p); }
  }

  lemma SealKeepsCache(s: State)
    requires J.Inv(s.j) && NamesOk(s) && CacheInv(s) && Enabled(s, Step(J.Event.Seal))
    ensures CacheInv(Next(s, Step(J.Event.Seal)))
  {
    hide IsPending, NamesOk, J.Inv;
    var t, o := Next(s, Step(J.Event.Seal)), s.j.active.value;
    var d, d' := s.j.disk, t.j.disk;
    forall p: nat ensures (IsPending(d', p) <==> p == o || IsPending(d, p)) && (IsPending(d, p) ==> p < o) {
      SealPending(s, p);
      SealIsNew(s.j);
    }
  }

  lemma SealIsNew(j: J.State)
    requires J.Inv(j) && J.Enabled(j, J.Event.Seal)
    ensures !IsPending(j.disk, j.active.value)
  {
    hide J.SentOk, J.KeptOk, J.OneOrder, J.Distinct;
  }

  lemma OtherKeepsInv(s: State, e: J.Event)
    requires Inv(s) && Enabled(s, Step(e)) && !MovesPending(e) && !e.Create? && !e.Transmit?
    ensures Inv(Next(s, Step(e)))
  {
    hide J.Inv, J.FlightOk, J.Enabled, J.Next, IsLive, CacheInv;
    J.StepKeepsInv(s.j, e);
    J.StepKeepsFlight(s.j, e);
    NamesKept(s, e);
    HistoryKept(s, e);
    CacheKept(s, e);
    SameNames(s.(j := J.Next(s.j, e)), Next(s, Step(e)));
  }

  /** Names and history do not depend on the lookahead. */
  lemma SameNames(s: State, t: State)
    requires NamesOk(s) && HistoryOk(s) && t.j == s.j && t.births == s.births && t.created == s.created
             && t.sent == s.sent
    ensures NamesOk(t) && HistoryOk(t)
  {
    hide IsLive;
    assert forall o: nat :: BirthOf(t, o) == BirthOf(s, o);
  }

  lemma TransmitKeepsInv(s: State)
    requires Inv(s) && Enabled(s, Step(J.Transmit))
    ensures Inv(Next(s, Step(J.Transmit)))
  {
    hide J.Inv, J.FlightOk, IsLive, CacheInv, J.Enabled, J.Next;
    J.StepKeepsInv(s.j, J.Transmit);
    J.StepKeepsFlight(s.j, J.Transmit);
    NamesKept(s, J.Transmit);
    TransmitKeepsHistory(s);
    CacheKept(s, J.Transmit);
    NamesOnly(s.(j := J.Next(s.j, J.Transmit)), Next(s, Step(J.Transmit)));
  }

  lemma NamesOnly(s: State, t: State)
    requires NamesOk(s) && t.j == s.j && t.births == s.births && t.created == s.created
    ensures NamesOk(t)
  {
    hide IsLive;
    assert forall o: nat :: BirthOf(t, o) == BirthOf(s, o);
  }

  lemma CreateKeepsInv(s: State, o: nat)
    requires Inv(s) && Enabled(s, Step(J.Create(o)))
    ensures Inv(Next(s, Step(J.Create(o))))
  {
    hide J.Inv, J.FlightOk, IsLive, CacheInv, NamesOk, HistoryOk;
    J.StepKeepsInv(s.j, J.Create(o));
    J.StepKeepsFlight(s.j, J.Create(o));
    CreateKeepsNames(s, o);
    CreateKeepsHistory(s, o);
    CacheKept(s, J.Create(o));
  }

  lemma MoveKeepsInv(s: State, e: J.Event)
    requires Inv(s) && Enabled(s, Step(e)) && (e.Seal? || e.NotSent? || e.MoveRebuild?)
    ensures Inv(Next(s, Step(e)))
  {
    hide J.Inv, J.FlightOk, IsLive, CacheInv, J.Enabled, J.Next;
    J.StepKeepsInv(s.j, e);
    J.StepKeepsFlight(s.j, e);
    NamesKept(s, e);
    HistoryKept(s, e);
    SameNames(s.(j := J.Next(s.j, e)), Next(s, Step(e)));
    if e.Seal? { SealKeepsCache(s); } else { BackToPending(s, e); }
  }

  /** A file that becomes pending by another way meets an empty lookahead. */
  lemma BackToPending(s: State, e: J.Event)
    requires CacheInv(s) && Enabled(s, Step(e)) && (e.NotSent? || e.MoveRebuild?)
    ensures CacheInv(Next(s, Step(e)))
  {
    EmptyCache(Next(s, Step(e)).j.disk);
    hide CacheOk, ScanOf;
  }

  lemma HeadKeepsNames(s: State, e: J.Event)
    requires NamesOk(s) && HistoryOk(s) && CacheInv(s) && s.cache != [] && J.Enabled(s.j, e)
    requires e == J.Claim(s.cache[0]) || e == J.Unreadable(s.cache[0])
    ensures NamesOk(s.(j := J.Next(s.j, e))) && HistoryOk(s.(j := J.Next(s.j, e)))
  {
    hide IsLive, CacheOk, ScanOf, IsOldest;
    var t := s.(j := J.Next(s.j, e));
    CacheHead(s.j.disk, s.cache);
    HistoryKept(s, e);
    forall o: nat | IsLive(t.j, o) ensures IsLive(s.j, o) { LiveShrinks(s.j, e, o); }
    forall o: nat | J.File(o, J.Open) in t.j.disk ensures J.File(o, J.Open) in s.j.disk { OpenShrinks(s.j, e, o); }
    forall p: nat | e.Claim? && IsLive(t.j, p) ensures s.cache[0] <= p { HeadIsFirst(s, p); }
  }

  lemma HeadIsFirst(s: State, p: nat)
    requires NamesOk(s) && s.cache != [] && IsOldest(s.j.disk, s.cache[0]) && J.Enabled(s.j, J.Claim(s.cache[0]))
    requires IsLive(J.Next(s.j, J.Claim(s.cache[0])), p)
    ensures s.cache[0] <= p
  {
    assert IsLive(s.j, s.cache[0]);
    if J.File(p, J.Pending) in s.j.disk { assert IsPending(s.j.disk, p); }
  }

  lemma HeadKeepsInv(s: State, ev: Event)
    requires Inv(s) && Enabled(s, ev) && (ev.ClaimHead? || ev.SetAsideHead?)
    ensures Inv(Next(s, ev))
  {
    hide J.Inv, J.FlightOk, IsLive, NamesOk, HistoryOk, CacheOk, ScanOf;
    var e := if ev.ClaimHead? then J.Claim(s.cache[0]) else J.Unreadable(s.cache[0]);
    J.StepKeepsInv(s.j, e);
    J.StepKeepsFlight(s.j, e);
    HeadKeepsNames(s, e);
    SameNames(s.(j := J.Next(s.j, e)), Next(s, ev));
    CacheListed(s.j.disk, s.cache);
    TakeKeepsCache(s.j.disk, s.cache, if ev.ClaimHead? then J.Inflight else J.Damaged);
  }

  lemma CacheListed(d: J.Disk, cache: seq<nat>)
    requires CacheOk(d, cache)
    ensures Listed(d, cache) && (cache != [] ==> IsPending(d, cache[0]))
  {
    if cache != [] { assert cache[0] in cache; }
  }

  lemma ScanKeepsInv(s: State, ev: Event)
    requires Inv(s) && Enabled(s, ev) && QuietStep(s, ev) && (ev.BeginScan? || ev.EndScan?)
    ensures Inv(Next(s, ev))
  {
    hide J.Inv, J.FlightOk, IsLive, NamesOk, HistoryOk, Smallest, CacheOk, Quiet, Returned;
    SameNames(s, Next(s, ev));
    if ev.EndScan? {
      QuietScanIsRight(s.j.disk, s.scan.before, s.scan.sealed, ev.listing, ev.kept);
    } else {
      ScanBegins(s.j.disk);
    }
  }

  lemma ScanBegins(d: J.Disk)
    ensures ScanOf(d, PendingOrders(d), {})
  {
    forall o: nat ensures IsPending(d, o) <==> o in PendingOrders(d) {
      if IsPending(d, o) { assert J.File(o, J.Pending) in d; }
    }
  }

  lemma StepKeepsInv(s: State, ev: Event)
    requires Inv(s) && Enabled(s, ev) && QuietStep(s, ev)
    ensures Inv(Next(s, ev))
  {
    hide Inv, Next, J.Enabled;
    match ev
    case BeginScan => ScanKeepsInv(s, ev);
    case EndScan(_, _) => ScanKeepsInv(s, ev);
    case ClaimHead => HeadKeepsInv(s, ev);
    case SetAsideHead => HeadKeepsInv(s, ev);
    case Step(e) =>
      if e.Create? {
        CreateKeepsInv(s, e.order);
      } else if e.Transmit? {
        TransmitKeepsInv(s);
      } else if MovesPending(e) {
        MoveKeepsInv(s, e);
      } else {
        OtherKeepsInv(s, e);
      }
  }

  // ---- Whole runs ----

  ghost predicate Legal(s: State, events: seq<Event>)
    decreases |events|
  {
    events == [] || (Enabled(s, events[0]) && Legal(Next(s, events[0]), events[1..]))
  }

  ghost function Run(s: State, events: seq<Event>): State
    requires Legal(s, events)
    decreases |events|
  {
    if events == [] then s else Run(Next(s, events[0]), events[1..])
  }

  /** Every scan of the run was quiet. */
  ghost predicate QuietRun(s: State, events: seq<Event>)
    requires Legal(s, events)
    decreases |events|
  {
    events == [] || (QuietStep(s, events[0]) && QuietRun(Next(s, events[0]), events[1..]))
  }

  lemma {:induction false} RunKeepsInv(s: State, events: seq<Event>)
    requires Inv(s) && Legal(s, events) && QuietRun(s, events)
    ensures Inv(Run(s, events))
    decreases |events|
  {
    hide Inv, Enabled, Next, QuietStep;
    if events != [] {
      StepKeepsInv(s, events[0]);
      RunKeepsInv(Next(s, events[0]), events[1..]);
    }
  }

  lemma InitInv(s: State)
    requires Init(s)
    ensures Inv(s)
  {
    J.InitInv(s.j);
    hide J.Inv, J.FlightOk;
  }

  /**
    Over every run with quiet scans, crashes and restarts included: the file the send loop takes next is
    the oldest pending one, and files were transmitted in the order in which they were created.
    */
  lemma SentInCreationOrder(s: State, events: seq<Event>)
    requires Init(s) && Legal(s, events) && QuietRun(s, events)
    ensures var t := Run(s, events);
            Ascends(t.sent) && (t.cache != [] ==> IsOldest(t.j.disk, t.cache[0]))
  {
    InitInv(s);
    RunKeepsInv(s, events);
    var t := Run(s, events);
    hide Legal, Run, QuietRun, Init;
    if t.cache != [] { CacheHead(t.j.disk, t.cache); }
  }

  // ---- The journal underneath ----

  /** What a step does to the journal: one step of its protocol, or none. */
  ghost function Inner(s: State, ev: Event): seq<J.Event>
    requires Enabled(s, ev)
  {
    match ev
    case Step(e) => [e]
    case BeginScan => []
    case EndScan(_, _) => []
    case ClaimHead => [J.Claim(s.cache[0])]
    case SetAsideHead => [J.Unreadable(s.cache[0])]
  }

  lemma InnerStep(s: State, ev: Event)
    requires Enabled(s, ev)
    ensures J.Legal(s.j, Inner(s, ev)) && J.Run(s.j, Inner(s, ev)) == Next(s, ev).j
  {
    hide J.Enabled, J.Next, J.Legal, J.Run;
    J.NoStep(s.j);
    match ev
    case Step(e) => J.OneStep(s.j, e);
    case ClaimHead => J.OneStep(s.j, J.Claim(s.cache[0]));
    case SetAsideHead => J.OneStep(s.j, J.Unreadable(s.cache[0]));
    case _ =>
  }

  /** Every run is a run of the journal protocol, so whatever holds in all its runs holds here. */
  lemma {:induction false} InnerRun(s: State, events: seq<Event>) returns (steps: seq<J.Event>)
    requires Legal(s, events)
    ensures J.Legal(s.j, steps) && J.Run(s.j, steps) == Run(s, events).j
    decreases |events|
  {
    hide Enabled, Next, J.Enabled, J.Next, J.Legal, J.Run, Inner;
    if events == [] {
      steps := [];
      J.NoStep(s.j);
    } else {
      InnerStep(s, events[0]);
      var rest := InnerRun(Next(s, events[0]), events[1..]);
      J.RunAppend(s.j, Inner(s, events[0]), rest);
      steps := Inner(s, events[0]) + rest;
    }
  }

  lemma StepKeepsProtocol(s: State, ev: Event)
    requires J.Inv(s.j) && J.FlightOk(s.j) && Enabled(s, ev)
    ensures J.Inv(Next(s, ev).j) && J.FlightOk(Next(s, ev).j)
  {
    hide J.Inv, J.FlightOk, Enabled, Next, Inner;
    InnerStep(s, ev);
    J.RunKeepsFlight(s.j, Inner(s, ev));
  }

  lemma ReachedProtocol(s: State, events: seq<Event>)
    requires Init(s) && Legal(s, events)
    ensures J.Inv(Run(s, events).j) && J.FlightOk(Run(s, events).j)
  {
    J.InitInv(s.j);
    hide J.Inv, J.FlightOk, Legal, Run;
    var steps := InnerRun(s, events);
    J.RunKeepsFlight(s.j, steps);
  }

  // ---- Two files sealed during one scan ----

  lemma {:induction false} Extend(s: State, done: seq<Event>, ev: Event)
    requires Legal(s, done) && Enabled(Run(s, done), ev)
    ensures Legal(s, done + [ev]) && Run(s, done + [ev]) == Next(Run(s, done), ev)
    decreases |done|
  {
    hide Enabled, Next;
    if done == [] {
      assert ([] + [ev])[1..] == [];
    } else {
      assert (done + [ev])[1..] == done[1..] + [ev];
      Extend(Next(s, done[0]), done[1..], ev);
    }
  }

  lemma NoStep(s: State)
    ensures Legal(s, []) && Run(s, []) == s
  {}

  const NOTHING := J.State(map[], J.Down, None, false, None, J.Idle, {}, {}, multiset{}, {})
  const FIRST := J.File(1, J.Pending)
  const SECOND := J.File(2, J.Pending)

  /** A scan of the empty directory is under way, and admission is open. */
  function Scanning0(): State {
    State(NOTHING.(phase := J.Up, accepting := true), [], Scanning({}, {}), map[], 0, [])
  }

  /** Meanwhile two files were written and sealed. */
  function BothSealed(): State {
    var j := NOTHING.(phase := J.Up, accepting := true, journaled := {10, 20}, appended := {10, 20},
                  disk := map[FIRST := J.Content([10], false), SECOND := J.Content([20], false)]);
    State(j, [], Scanning({}, {1, 2}), map[1 := 0, 2 := 1], 2, [])
  }

  lemma ScanStarts() returns (s: State, events: seq<Event>)
    ensures Init(s) && Legal(s, events) && Run(s, events) == Scanning0()
  {
    hide Legal, Run;
    s, events := State(NOTHING, [], NoScan, map[], 0, []), [];
    NoStep(s);
    Extend(s, events, Step(J.Start));
    events := events + [Step(J.Start)];
    Extend(s, events, Step(J.Started));
    events := events + [Step(J.Started)];
    Extend(s, events, BeginScan);
    events := events + [BeginScan];
    assert PendingOrders(map[]) == {};
  }

  /** A new file with one record in it, while the scan goes on. */
  lemma WriteOne(s: State, done: seq<Event>, o: nat, id: J.Id) returns (events: seq<Event>)
    requires Legal(s, done)
    requires var t := Run(s, done);
             && t.j.phase.Up? && t.j.accepting && t.j.active.None? && t.scan.Scanning? && id !in t.j.journaled
             && forall f :: f in t.j.disk ==> f.order < o
    ensures Legal(s, events)
    ensures var t := Run(s, done);
            Run(s, events) == t.(j := t.j.(disk := t.j.disk[J.File(o, J.Open) := J.Content([id], false)],
                                           active := Some(o),
                                           journaled := t.j.journaled + {id}, appended := t.j.appended + {id}),
                                 births := t.births[o := t.created], created := t.created + 1)
  {
    hide Legal, Run;
    var t := Run(s, done);
    Extend(s, done, Step(J.Create(o)));
    events := done + [Step(J.Create(o))];
    Extend(s, events, Step(J.Append(id)));
    events := events + [Step(J.Append(id))];
    assert [] + [id] == [id];
    assert Run(s, events).j.disk == t.j.disk[J.File(o, J.Open) := J.Content([id], false)];
  }

  /** One file: created, written and sealed while the scan goes on. */
  lemma SealOne(s: State, done: seq<Event>, o: nat, id: J.Id) returns (events: seq<Event>)
    requires Legal(s, done)
    requires var t := Run(s, done);
             && t.j.phase.Up? && t.j.accepting && t.j.active.None? && t.scan.Scanning? && id !in t.j.journaled
             && forall f :: f in t.j.disk ==> f.order < o
    ensures Legal(s, events)
    ensures var t := Run(s, done);
            Run(s, events) == t.(j := t.j.(disk := t.j.disk[J.File(o, J.Pending) := J.Content([id], false)],
                                           journaled := t.j.journaled + {id}, appended := t.j.appended + {id}),
                                 scan := t.scan.(sealed := t.scan.sealed + {o}),
                                 births := t.births[o := t.created], created := t.created + 1)
  {
    hide Legal, Run;
    var t := Run(s, done);
    events := WriteOne(s, done, o, id);
    Extend(s, events, Step(J.Event.Seal));
    events := events + [Step(J.Event.Seal)];
    assert Run(s, events).j.disk == t.j.disk[J.File(o, J.Pending) := J.Content([id], false)];
  }

  lemma BothAreSealed() returns (s: State, events: seq<Event>)
    ensures Init(s) && Legal(s, events) && Run(s, events) == BothSealed()
  {
    hide Legal, Run, Init;
    s, events := ScanStarts();
    events := SealOne(s, events, 1, 10);
    events := SealOne(s, events, 2, 20);
    assert {} + {10} + {20} == {10, 20} && {} + {1} + {2} == {1, 2};
    assert Run(s, events).j.disk == BothSealed().j.disk;
  }

  lemma OneSmallest(o: nat)
    ensures Smallest([o], [o], LOOKAHEAD)
  {}

  /** The stream returned the second file only: it is claimed although the first is older. */
  lemma SecondIsClaimed() returns (s: State, events: seq<Event>)
    ensures Init(s) && Legal(s, events)
    ensures var t := Run(s, events);
            t.scan.NoScan? && t.cache == [2] && Enabled(t, ClaimHead) && !IsOldest(t.j.disk, 2) && t.j == BothSealed().j
            && t.births == BothSealed().births && t.sent == []
  {
    hide Legal, Run, Init, Smallest;
    s, events := BothAreSealed();
    OneSmallest(2);
    Extend(s, events, EndScan([2], [2]));
    events := events + [EndScan([2], [2])];
    assert IsPending(BothSealed().j.disk, 1);
  }

  lemma SecondGoesOut() returns (s: State, events: seq<Event>)
    ensures Init(s) && Legal(s, events)
    ensures var t := Run(s, events);
            && t.scan.NoScan? && t.cache == [] && t.j.phase.Up? && t.sent == [1]
            && t.births == BothSealed().births && t.j.sender == J.Claimed(2, true)
            && t.j.disk == map[FIRST := J.Content([10], false), J.File(2, J.Inflight) := J.Content([20], false)]
  {
    hide Legal, Run, Init;
    s, events := SecondIsClaimed();
    Extend(s, events, ClaimHead);
    events := events + [ClaimHead];
    Extend(s, events, Step(J.Transmit));
    events := events + [Step(J.Transmit)];
    assert [] + [1] == [1];
  }

  lemma SecondIsSent() returns (s: State, events: seq<Event>)
    ensures Init(s) && Legal(s, events)
    ensures var t := Run(s, events);
            && t.scan.NoScan? && t.cache == [] && t.j.phase.Up? && t.j.sender.Idle? && t.sent == [1]
            && t.births == BothSealed().births && PendingOrders(t.j.disk) == {1}
            && FIRST in t.j.disk && !t.j.disk[FIRST].torn
  {
    hide Legal, Run, Init;
    s, events := SecondGoesOut();
    Extend(s, events, Step(J.Confirm));
    events := events + [Step(J.Confirm)];
  }

  /** The whole race: the file created second is transmitted first. */
  lemma RacingRun() returns (s: State, events: seq<Event>)
    ensures Init(s) && Legal(s, events) && Run(s, events).sent == [1, 0]
    ensures !Ascends(Run(s, events).sent)
  {
    hide Legal, Run, Init, Smallest;
    s, events := SecondIsSent();
    Extend(s, events, BeginScan);
    events := events + [BeginScan];
    OneSmallest(1);
    Extend(s, events, EndScan([1], [1]));
    events := events + [EndScan([1], [1])];
    Extend(s, events, ClaimHead);
    events := events + [ClaimHead];
    Extend(s, events, Step(J.Transmit));
    events := events + [Step(J.Transmit)];
    var sent := Run(s, events).sent;
    assert sent == [1] + [0] && sent[0] > sent[1];
  }
}
