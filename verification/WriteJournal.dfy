/** The WriteJournal object and one round of its send loop, as runs of the journal protocol with its scans. */
module WriteJournals {
  import opened Options
  import opened ByteStrings
  import opened Journal
  import opened Lookahead
  import opened Sequences
  import F = Frames
  import O = JournalOrder

  datatype Admission = Admitted | Closed | TooLarge | Overloaded | Broken

  /** How the write of one frame ends. */
  datatype Io = Good | FailsWhole | FailsTorn

  /** What the pool answers: a verdict without a reply, or a batch result. */
  datatype Outcome =
    | PoolNotSent
    | PoolFailed(transmitted: bool)
    | Reply(accepted: nat, failed: nat, errors: seq<nat>, ok: bool)

  function Total(size: Id -> nat, records: seq<Id>): nat {
    if records == [] then 0 else Total(size, records[..|records| - 1]) + size(records[|records| - 1]) + 8
  }

  /** What append puts into a file can be read back: a bounded number of bounded entries, and a bounded size. */
  ghost predicate Admissible(size: Id -> nat, records: seq<Id>) {
    && |records| <= F.MAX_ENTRIES && Total(size, records) <= F.MAX_BATCH
    && forall id :: id in records ==> size(id) <= F.MAX_ENTRY
  }

  ghost predicate Readable(size: Id -> nat, d: Disk) { forall f :: f in d ==> Admissible(size, d[f].records) }

  // ---- The object ----

  /** The active file is the newest file, and the counters describe it while writes succeed. */
  ghost predicate ActiveOk(d: Disk, active: Option<nat>, accepting: bool, count: nat, bytes: nat, size: Id -> nat) {
    if active.None? then count == 0 && bytes == 0
    else
      var f := File(active.value, Open);
      && f in d && (forall g :: g in d && g != f ==> g.order < f.order)
      && (accepting ==> count == |d[f].records| && bytes == Total(size, d[f].records) && !d[f].torn)
  }

  /** Writing an open file changes neither the lookahead nor a scan. */
  lemma OpenWriteKeeps(d: Disk, o: nat, c: Content, cache: seq<nat>, scan: O.Scan)
    requires Listed(d, cache) && (scan.Scanning? ==> ScanOf(d, scan.before, scan.sealed))
    ensures var d' := d[File(o, Open) := c];
            && Listed(d', cache) && (CacheOk(d, cache) ==> CacheOk(d', cache))
            && (scan.Scanning? ==> ScanOf(d', scan.before, scan.sealed))
  {
    hide Listed, CacheOk, ScanOf;
    var d' := d[File(o, Open) := c];
    assert forall p :: IsPending(d, p) <==> IsPending(d', p);
    OthersKeepCache(d, d', cache);
    if scan.Scanning? { OthersKeepScan(d, d', scan.before, scan.sealed); }
  }

  lemma MoveKeepsReadable(size: Id -> nat, d: Disk, o: nat, from: Stage, to: Stage)
    requires Readable(size, d) && File(o, from) in d
    ensures Readable(size, Move(d, o, from, to))
  {}

  /** The active file has its number of records, or no room for a frame of `n` bytes. */
  predicate Full(count: nat, bytes: nat, batchSize: nat, n: nat) {
    count >= batchSize || (bytes > 0 && bytes + n + 8 > F.MAX_BATCH)
  }

  /** What happens before a frame is written: a full file is sealed, and a new one created if none is left. */
  ghost function Opening(was: Option<nat>, full: bool, now: nat): seq<O.Event> {
    (if was.Some? && full then [O.Step(Event.Seal)] else [])
    + if was.Some? && !full then [] else [O.Step(Create(now))]
  }

  /** The step that a frame write is: the record, or a part of it, is in the file. */
  ghost function WriteEvent(id: Id, io: Io): Event {
    if io.Good? then Event.Append(id) else AppendFails(id, io.FailsWhole?)
  }

  class WriteJournal {
    const batchSize: nat
    const maxJournalBytes: int
    const size: Id -> nat
    var disk: Disk
    var active: Option<nat>
    var count: nat
    var bytes: nat
    var accepting: bool
    var sequence: nat
    var retainedBytes: int
    var pendingCache: seq<nat>
    ghost const start: O.State
    ghost var history: seq<O.Event>   // all steps since the directory was empty, earlier processes included
    ghost var st: O.State

    /** The object is where the run so far has led. */
    ghost predicate Tracked()
      reads `st, `history
    {
      O.Init(start) && O.Legal(start, history) && st == O.Run(start, history) && Inv(st.j) && FlightOk(st.j)
    }

    ghost predicate Mirrors()
      reads this
    {
      && st.j.phase.Up? && st.j.disk == disk && st.j.active == active && st.j.accepting == accepting
      && st.cache == pendingCache
    }

    /** While the directory is scanned nothing is taken, and what becomes pending is newer. */
    ghost predicate ScanOk()
      reads this
    {
      st.scan.Scanning? ==> pendingCache == [] && st.j.sender.Idle? && ScanOf(disk, st.scan.before, st.scan.sealed)
    }

    ghost predicate Valid()
      reads this
    {
      && Tracked() && Mirrors() && ScanOk()
      && 1 <= batchSize <= F.MAX_ENTRIES && Readable(size, disk)
      && (forall f :: f in disk ==> f.order <= sequence)
      && ActiveOk(disk, active, accepting, count, bytes, size)
      && Listed(disk, pendingCache)
    }

    /** The lookahead is right. */
    ghost predicate InOrder()
      reads this
    {
      CacheOk(disk, pendingCache)
    }

    /** What the directory stream returns, if the lookahead has to be filled. */
    ghost predicate Scanned(listing: seq<nat>)
      reads this
    {
      pendingCache == [] ==> st.scan.Scanning? && Returned(st.scan.before, st.scan.sealed, listing)
    }

    /** A scan that is about to end meets the condition under which it is right. */
    ghost predicate ScanQuiet()
      reads this
    {
      st.scan.Scanning? ==> Quiet(st.scan.before, st.scan.sealed)
    }

    /** The journal after recovery. */
    constructor (batchSize: nat, maxJournalBytes: int, size: Id -> nat, disk: Disk, sequence: nat, retained: int,
                 ghost start: O.State, ghost history: seq<O.Event>)
      requires 1 <= batchSize <= F.MAX_ENTRIES && O.Init(start) && O.Legal(start, history)
      requires var st := O.Run(start, history);
               && st.j.phase.Up? && st.j.active.None? && st.j.accepting && st.j.disk == disk
               && st.cache == [] && st.scan.NoScan?
      requires Readable(size, disk) && forall f :: f in disk ==> f.order <= sequence
      ensures Valid() && InOrder() && this.start == start && this.history == history
      ensures this.size == size && this.batchSize == batchSize && this.disk == disk && accepting
      ensures retainedBytes == retained && this.sequence == sequence
    {
      hide O.Init, O.Legal, O.Run, Inv, FlightOk;
      O.ReachedProtocol(start, history);
      this.batchSize, this.maxJournalBytes, this.size := batchSize, maxJournalBytes, size;
      this.disk, this.sequence, this.retainedBytes := disk, sequence, retained;
      this.start, this.history, this.st := start, history, O.Run(start, history);
      active, count, bytes, accepting, pendingCache := None, 0, 0, true, [];
    }

    /** Every step of the object is a step of the protocol. */
    ghost method Step(e: O.Event)
      requires Tracked() && O.Enabled(st, e)
      modifies `st, `history
      ensures Tracked() && st == O.Next(old(st), e) && history == old(history) + [e]
    {
      hide O.Init, O.Legal, O.Run, O.Enabled, O.Next, Inv, FlightOk;
      O.StepKeepsProtocol(st, e);
      O.Extend(start, history, e);
      st, history := O.Next(st, e), history + [e];
    }

    method Seal()
      requires Valid()
      modifies `disk, `active, `count, `bytes, `st, `history
      ensures old(InOrder()) ==> InOrder()
      ensures Valid() && history == old(history) + if old(active).None? then [] else [O.Step(Event.Seal)]
      ensures active.None? && count == 0 && bytes == 0
      ensures st.j.appended == old(st.j.appended) && st.j.journaled == old(st.j.journaled) && st.sent == old(st.sent)
    {
      hide Tracked, Readable, CacheOk, ScanOf, O.Enabled, O.Next;
      if active.None? { return; }
      SealStep(st);
      MoveKeepsReadable(size, disk, active.value, Open, Pending);
      SealKeepsCache(disk, active.value, pendingCache);
      if st.scan.Scanning? { SealKeepsScan(disk, active.value, st.scan.before, st.scan.sealed); }
      Step(O.Step(Event.Seal));
      disk := Move(disk, active.value, Open, Pending);
      active, count, bytes := None, 0, 0;
    }

    /** Without an active file nothing is counted. */
    lemma NoActiveFile()
      requires Valid()
      ensures active.None? ==> count == 0 && bytes == 0
    {}

    /** newPath and the new stream: the name sorts after every file, whatever the clock says. */
    method OpenNew(now: nat)
      requires Valid() && active.None? && count == 0 && bytes == 0
      modifies `disk, `active, `sequence, `st, `history
      ensures old(InOrder()) ==> InOrder()
      ensures Valid() && active.Some? && history == old(history) + [O.Step(Create(active.value))]
      ensures active.value >= now && active.value > old(sequence) && sequence == active.value
      ensures active.value == now || active.value == old(sequence) + 1
      ensures disk == old(disk)[File(active.value, Open) := Content([], false)]
      ensures st.j.appended == old(st.j.appended) && st.j.journaled == old(st.j.journaled) && st.sent == old(st.sent)
    {
      hide Tracked, Readable, CacheOk, Enabled, Next, ScanOf;
      var order := if now > sequence + 1 then now else sequence + 1;
      var disk' := disk[File(order, Open) := Content([], false)];
      CreateStep(st.j, order);
      CreateKeepsReadable(size, disk, order);
      OpenWriteKeeps(disk, order, Content([], false), pendingCache, st.scan);
      Step(O.Step(Create(order)));
      sequence := order;
      disk := disk';
      active := Some(order);
    }

    /** writeFrame and the counters; a failed write closes admission. */
    method WriteFrame(id: Id, io: Io) returns (r: Admission)
      requires Valid() && accepting && active.Some? && id !in st.j.journaled
      requires count < batchSize && size(id) <= F.MAX_ENTRY && bytes + size(id) + 8 <= F.MAX_BATCH
      modifies `disk, `accepting, `retainedBytes, `count, `bytes, `st, `history
      ensures old(InOrder()) ==> InOrder()
      ensures Valid() && history == old(history) + [O.Step(WriteEvent(id, io))] && st.sent == old(st.sent)
      ensures r == (if io.Good? then Admitted else Broken) && accepting == io.Good?
      ensures retainedBytes == old(retainedBytes) + if r.Admitted? then size(id) + 8 else 0
      ensures st.j.appended == old(st.j.appended) + if r.Admitted? then {id} else {}
      ensures r.Admitted? ==> Kept(disk, id)
      ensures var f := File(old(active).value, Open);
              f in old(disk) && f in disk && Admissible(size, old(disk)[f].records + [id])
              && disk[f].records == old(disk)[f].records + (if io.FailsTorn? then [] else [id])
    {
      hide Tracked, Readable, CacheOk, Enabled, Next, Kept, Total, ActiveOk, ScanOf, Admissible, Listed,
        O.Enabled, O.Next;
      ActiveFile(disk, active, accepting, count, bytes, size);
      var f := File(active.value, Open);
      var c := if io.FailsTorn? then disk[f].(torn := true) else disk[f].(records := disk[f].records + [id]);
      ghost var e := WriteEvent(id, io);
      AppendStep(st.j, e, c);
      PlainStep(st, e);
      WriteKeepsReadable(size, disk, f, c, id);
      OpenWriteKeeps(disk, active.value, c, pendingCache, st.scan);
      WriteKeepsActive(disk, active, count, bytes, size, c, id, io.Good?);
      Step(O.Step(e));
      disk := disk[f := c];
      if io.Good? {
        retainedBytes, count, bytes := retainedBytes + size(id) + 8, count + 1, bytes + size(id) + 8;
        r := Admitted;
      } else {
        accepting := false;
        r := Broken;
      }
    }

    /** A file with room for one more frame of `n` bytes: the active one, or a new one after sealing it. */
    method MakeRoom(n: nat, now: nat)
      requires Valid() && n <= F.MAX_ENTRY
      modifies `disk, `active, `sequence, `count, `bytes, `st, `history
      ensures old(InOrder()) ==> InOrder()
      ensures Valid() && active.Some? && count < batchSize && bytes + n + 8 <= F.MAX_BATCH
      ensures st.j.appended == old(st.j.appended) && st.j.journaled == old(st.j.journaled) && st.sent == old(st.sent)
      ensures var full := Full(old(count), old(bytes), batchSize, n);
              && (if old(active).Some? && !full then active == old(active)
                  else active.value >= now && active.value > old(sequence))
              && history == old(history) + Opening(old(active), full, active.value)
    {
      hide Tracked, Readable, CacheOk, Enabled, Next, ScanOf, Listed, ActiveOk, Mirrors;
      NoActiveFile();
      if count >= batchSize || (bytes > 0 && bytes + n + 8 > F.MAX_BATCH) { Seal(); }
      if active.None? { OpenNew(now); }
    }

    /** append: admitted exactly when the journal takes the record, and then it is on disk. */
    method Append(id: Id, now: nat, io: Io) returns (r: Admission)
      requires Valid() && id !in st.j.journaled
      modifies this
      ensures old(InOrder()) ==> InOrder()
      ensures Valid() && old(history) <= history && st.sent == old(st.sent)
      ensures st.j.appended == old(st.j.appended) + if r.Admitted? then {id} else {}
      ensures r.Closed? <==> !old(accepting)
      ensures r.TooLarge? <==> old(accepting) && size(id) > F.MAX_ENTRY
      ensures r.Overloaded? <==>
              old(accepting) && size(id) <= F.MAX_ENTRY && old(retainedBytes) > maxJournalBytes - size(id) - 8
      ensures r.Closed? || r.TooLarge? || r.Overloaded? ==> history == old(history) && disk == old(disk)
      ensures r.Admitted? ==> accepting && Kept(disk, id)
      ensures r.Broken? ==> !accepting && !io.Good?
      ensures var full := Full(old(count), old(bytes), batchSize, size(id));
              r.Admitted? || r.Broken? ==>
                && active.Some?
                && (if old(active).Some? && !full then active == old(active)
                    else active.value >= now && active.value > old(sequence))
                && history == old(history) + Opening(old(active), full, active.value) + [O.Step(WriteEvent(id, io))]
      ensures retainedBytes == old(retainedBytes) + if r.Admitted? then size(id) + 8 else 0
    {
      hide Tracked, Readable, CacheOk, Enabled, Next, Kept, ScanOf, Listed, Total, Admissible, ActiveOk, Mirrors,
        WriteEvent, Opening;
      if !accepting { return Closed; }
      if size(id) > F.MAX_ENTRY { return TooLarge; }
      if retainedBytes > maxJournalBytes - size(id) - 8 { return Overloaded; }
      MakeRoom(size(id), now);
      r := WriteFrame(id, io);
    }

    /** The directory stream is opened; of the files sealed from here on it may return any. */
    ghost method BeginScan()
      requires Valid() && st.j.sender.Idle? && pendingCache == [] && st.scan.NoScan?
      modifies `st, `history
      ensures Valid() && history == old(history) + [O.BeginScan]
      ensures st == old(st).(scan := O.Scanning(O.PendingOrders(disk), {}))
    {
      hide Tracked, Readable, ActiveOk, Enabled, Next, ScanOf, O.PendingOrders;
      O.ScanBegins(disk);
      Step(O.BeginScan);
    }

    /**
      The bounded lookahead yields a pending file. It stays right over scans that are quiet, and then
      yields the oldest one; a lookahead that is not empty is not refilled.
      */
    method OldestPending(listing: seq<nat>) returns (o: Option<nat>)
      requires Valid() && Scanned(listing)
      modifies `pendingCache, `st, `history
      ensures Valid() && old(history) <= history && st == old(st).(cache := pendingCache, scan := st.scan)
              && st.scan.NoScan?
      ensures o.Some? ==> pendingCache != [] && pendingCache[0] == o.value && IsPending(disk, o.value)
      ensures o.None? ==> old(st.scan.Scanning?) && old(st.scan).before == {}
      ensures old(InOrder() && ScanQuiet()) ==> InOrder() && (o.Some? ==> IsOldest(disk, o.value))
    {
      hide Tracked, Readable, ActiveOk, CacheOk, Smallest, IsOldest, Quiet, ScanOf, Enabled, Next;
      ghost var right := InOrder() && ScanQuiet();
      if pendingCache == [] {
        ghost var before, sealed := st.scan.before, st.scan.sealed;
        var selected := SelectSmallest(listing, LOOKAHEAD);
        assert selected == [] ==> listing == [] by { NothingKept(listing, selected, LOOKAHEAD); }
        if right { QuietScanIsRight(disk, before, sealed, listing, selected); }
        ScanListed(disk, before, sealed, listing, selected);
        Step(O.EndScan(listing, selected));
        pendingCache := selected;
      }
      if pendingCache == [] { return None; }
      assert pendingCache[0] in pendingCache;
      if right { CacheHead(disk, pendingCache); }
      o := Some(pendingCache[0]);
    }

    /** move of the oldest pending file, to be sent or set aside as damaged. */
    method Take(to: Stage)
      requires Valid() && st.j.sender.Idle? && pendingCache != [] && IsPending(disk, pendingCache[0])
      requires to.Damaged? || (to.Inflight? && !disk[File(pendingCache[0], Pending)].torn)
      modifies `disk, `pendingCache, `st, `history
      ensures old(InOrder()) ==> InOrder()
      ensures Valid() && history == old(history) + [if to.Inflight? then O.ClaimHead else O.SetAsideHead]
      ensures disk == Move(old(disk), old(pendingCache[0]), Pending, to)
      ensures var sender := if to.Inflight? then Claimed(old(pendingCache[0]), false) else Idle;
              st == old(st).(j := old(st.j).(disk := disk, sender := sender), cache := old(pendingCache)[1..])
    {
      hide Tracked, Readable, CacheOk, Enabled, Next, ScanOf;
      var o := pendingCache[0];
      TakeStep(st.j, o, to);
      MoveKeepsReadable(size, disk, o, Pending, to);
      MoveKeepsActive(disk, active, accepting, count, bytes, size, o, Pending, to);
      TakeKeepsCache(disk, pendingCache, to);
      Step(if to.Inflight? then O.ClaimHead else O.SetAsideHead);
      disk := Move(disk, o, Pending, to);
      pendingCache := pendingCache[1..];
    }

    /** move of the claimed file; putting it back empties the lookahead. */
    method SettleClaim(claimed: nat, to: Stage, ghost e: Event)
      requires st.j.sender.Claimed? && claimed == st.j.sender.order && Settles(e) && to == SettledStage(e)
      requires Enabled(st.j, e) && Valid()
      modifies `disk, `pendingCache, `st, `history
      ensures old(InOrder()) ==> InOrder()
      ensures Valid() && history == old(history) + [O.Step(e)]
      ensures st.j == Next(old(st.j), e) && st.sent == old(st.sent) && st.births == old(st.births)
      ensures File(claimed, Inflight) in old(disk) && disk == Move(old(disk), claimed, Inflight, to)
    {
      hide Tracked, Readable, CacheOk, Enabled, Next, ScanOf, O.Enabled, O.Next;
      SettleStep(st.j, e);
      SettleNext(st, e);
      MoveKeepsReadable(size, disk, claimed, Inflight, to);
      MoveKeepsActive(disk, active, accepting, count, bytes, size, claimed, Inflight, to);
      SettleKeepsCache(disk, claimed, to, pendingCache);
      Step(O.Step(e));
      disk := Move(disk, claimed, Inflight, to);
      if to.Pending? { pendingCache := []; }
    }

    method RemoveDone(o: nat)
      requires Valid() && File(o, Done) in disk
      modifies `disk, `retainedBytes, `st, `history
      ensures old(InOrder()) ==> InOrder()
      ensures Valid() && history == old(history) + [O.Step(DeleteDone(o))]
      ensures disk == old(disk) - {File(o, Done)} && st == old(st).(j := old(st.j).(disk := disk))
      ensures retainedBytes == old(retainedBytes) - Total(size, old(disk)[File(o, Done)].records)
    {
      hide Tracked, Readable, CacheOk, Enabled, Next, ScanOf, O.Enabled, O.Next;
      DeleteStep(st.j, o);
      PlainStep(st, DeleteDone(o));
      DeleteKeepsReadable(size, disk, o);
      OthersKeepCache(disk, disk - {File(o, Done)}, pendingCache);
      if st.scan.Scanning? { OthersKeepScan(disk, disk - {File(o, Done)}, st.scan.before, st.scan.sealed); }
      Step(O.Step(DeleteDone(o)));
      retainedBytes := retainedBytes - Total(size, disk[File(o, Done)].records);
      disk := disk - {File(o, Done)};
    }

    /** The bytes of the claimed batch may have left the client. */
    ghost method NoteTransmission(transmitted: bool)
      requires Tracked() && st.j.phase.Up? && st.j.sender.Claimed? && !st.j.sender.transmitted
      requires Has(st.j, st.j.sender.order, Inflight)
      modifies `st, `history
      ensures Tracked() && old(history) <= history
      ensures st == if transmitted then Sent(old(st)) else old(st)
    {
      hide Tracked, Enabled, Next;
      if transmitted {
        TransmitStep(st.j);
        Step(O.Step(Transmit));
      }
    }

    /** What the send loop makes of the pool's answer to the claimed batch; `saved` bytes hold a partial result. */
    method Conclude(o: nat, records: seq<Id>, outcome: Outcome, saved: nat)
      requires Valid() && st.j.sender == Claimed(o, false)
      requires File(o, Inflight) in disk && records == disk[File(o, Inflight)].records
      modifies `disk, `pendingCache, `retainedBytes, `st, `history
      ensures old(InOrder()) ==> InOrder()
      ensures Valid() && old(history) <= history && st.j.sender.Idle?
      ensures st.j.sent == old(st.j.sent) + if Transmitted(outcome) then multiset(records) else multiset{}
      ensures st.sent == old(st.sent) + if Transmitted(outcome) then [O.BirthOf(old(st), o)] else []
      ensures st.j.confirmed == old(st.j.confirmed) + ConfirmedBy(records, outcome)
      ensures disk == Concluded(old(disk), o, SettledBy(|records|, outcome))
      ensures retainedBytes == old(retainedBytes) + Growth(size, records, SettledBy(|records|, outcome), saved)
    {
      hide Tracked, Readable, CacheOk, ActiveOk, Enabled, Next, Ids, SettledBy, SettledStage, Settlement, ConfirmedBy,
        Settles, ScanOf, O.BirthOf;
      NoteTransmission(Transmitted(outcome));
      var to := SettledBy(|records|, outcome);
      ghost var e := Settlement(records, outcome);
      SettlementEnabled(st.j, records, outcome);
      SettleStep(st.j, e);
      if to.Partial? { retainedBytes := retainedBytes + saved; }
      SettleClaim(o, to, e);
      if to.Done? { RemoveDone(o); }
    }

    /**
      One round of the send loop: it takes the oldest pending file, sets it aside if it does not read,
      and else sends it and books the answer.
      */
    method SendNext(listing: seq<nat>, outcome: Outcome, saved: nat) returns (o: Option<nat>)
      requires Valid() && st.j.sender.Idle? && Scanned(listing)
      modifies `disk, `pendingCache, `retainedBytes, `st, `history
      ensures Valid() && old(history) <= history && st.j.sender.Idle?
      ensures o.None? ==> st.j == old(st.j) && old(st.scan.Scanning?) && old(st.scan).before == {}
      ensures o.Some? ==> IsPending(old(disk), o.value)
      ensures old(InOrder() && ScanQuiet()) ==> InOrder() && (o.Some? ==> IsOldest(old(disk), o.value))
      ensures o.Some? ==> disk == AfterRound(old(disk), o.value, outcome)
      ensures retainedBytes == old(retainedBytes)
                               + if o.Some? then RoundGrowth(size, old(disk), o.value, outcome, saved) else 0
      ensures var sends := o.Some? && SendsBatch(old(disk), o.value, outcome);
              && st.j.sent
                 == old(st.j.sent) + (if sends then multiset(old(disk)[File(o.value, Pending)].records) else multiset{})
              && st.sent == old(st.sent) + if sends then [O.BirthOf(old(st), o.value)] else []
    {
      hide Tracked, Readable, CacheOk, ActiveOk, Enabled, Next, IsOldest, SettledBy, Concluded, Ids, ConfirmedBy,
        ScanOf;
      o := OldestPending(listing);
      if o.None? { return; }
      var content := disk[File(o.value, Pending)];
      if content.torn {
        Take(Damaged);
        return;
      }
      Take(Inflight);
      Conclude(o.value, content.records, outcome, saved);
    }
  }

  /** The state once the claimed batch is on its way. */
  ghost function Sent(s: O.State): O.State
    requires s.j.sender.Claimed? && Has(s.j, s.j.sender.order, Inflight)
  {
    s.(j := s.j.(sender := Claimed(s.j.sender.order, true),
                 sent := s.j.sent + multiset(s.j.disk[File(s.j.sender.order, Inflight)].records)),
    sent := s.sent + [O.BirthOf(s, s.j.sender.order)])
  }

  /** The journal's first start, in an empty directory. */
  method OpenEmpty(batchSize: nat, maxJournalBytes: int, size: Id -> nat) returns (journal: WriteJournal)
    requires 1 <= batchSize <= F.MAX_ENTRIES
    ensures fresh(journal) && journal.Valid() && journal.InOrder() && journal.disk == map[] && journal.accepting
    ensures journal.retainedBytes == 0 && journal.history == [O.Step(Start), O.Step(Started)]
  {
    ghost var down := State(map[], Down, None, false, None, Idle, {}, {}, multiset{}, {});
    ghost var start := O.State(down, [], O.NoScan, map[], 0, []);
    ghost var history := [O.Step(Start), O.Step(Started)];
    assert history[1..] == [O.Step(Started)] && history[1..][1..] == [];
    assert O.Run(start, history) == start.(j := down.(phase := Up, accepting := true));
    journal := new WriteJournal(batchSize, maxJournalBytes, size, map[], 0, 0, start, history);
  }

  /**
    Whatever methods were called on the journal, in this process and in earlier ones: if its scans were
    quiet, batches went out in the order in which their files were created.
    */
  lemma TransmitsInCreationOrder(journal: WriteJournal)
    requires journal.Valid() && O.QuietRun(journal.start, journal.history)
    ensures Ascends(journal.st.sent)
    ensures journal.pendingCache != [] ==> IsOldest(journal.disk, journal.pendingCache[0])
  {
    hide O.Init, O.Legal, O.Run, O.QuietRun, Inv, FlightOk, Readable, ActiveOk, Listed;
    O.SentInCreationOrder(journal.start, journal.history);
  }

  /** How many bytes more the journal retains: a partial result is saved, a confirmed file is removed. */
  function Growth(size: Id -> nat, records: seq<Id>, to: Stage, saved: nat): int {
    match to
    case Partial => saved
    case Done => 0 - Total(size, records)
    case _ => 0
  }

  /** The claimed file's next place; a confirmed one is removed. */
  function Concluded(d: Disk, o: nat, to: Stage): Disk
    requires File(o, Inflight) in d
  {
    var d' := Move(d, o, Inflight, to);
    if to.Done? then d' - {File(o, Done)} else d'
  }

  predicate SendsBatch(d: Disk, o: nat, outcome: Outcome)
    requires IsPending(d, o)
  {
    !d[File(o, Pending)].torn && Transmitted(outcome)
  }

  function RoundGrowth(size: Id -> nat, d: Disk, o: nat, outcome: Outcome, saved: nat): int
    requires IsPending(d, o)
  {
    var c := d[File(o, Pending)];
    if c.torn then 0 else Growth(size, c.records, SettledBy(|c.records|, outcome), saved)
  }

  function AfterRound(d: Disk, o: nat, outcome: Outcome): Disk
    requires IsPending(d, o)
  {
    var c := d[File(o, Pending)];
    if c.torn then Move(d, o, Pending, Damaged)
    else Concluded(Move(d, o, Pending, Inflight), o, SettledBy(|c.records|, outcome))
  }

  /** A round changes one file: it stays pending exactly after NOT_SENT, and leaves no trace only when confirmed. */
  lemma RoundMoves(d: Disk, o: nat, outcome: Outcome)
    requires DiskOk(d) && IsPending(d, o) && !d[File(o, Pending)].torn
    ensures var d', to := AfterRound(d, o, outcome), SettledBy(|d[File(o, Pending)].records|, outcome);
            && (outcome.PoolNotSent? ==> d' == d)
            && (!outcome.PoolNotSent? ==> !IsPending(d', o))
            && (!to.Done? ==> File(o, to) in d' && d'[File(o, to)] == d[File(o, Pending)])
            && (forall f :: f in d && f != File(o, Pending) ==> f in d' && d'[f] == d[f])
            && (to.Done? ==> forall id :: id in d[File(o, Pending)].records ==>
               id in ConfirmedBy(d[File(o, Pending)].records, outcome))
  {
    hide DiskOk;
    OnlyPending(d, o);
    var records := d[File(o, Pending)].records;
    if outcome.Reply? { AcceptedAreRecords(records, outcome.errors); }
  }

  /**
    What an answer means for a batch of `n` records: done only if all were accepted, partial only if the
    errors account for every record that was not, pending only if it was not sent, and else uncertain.
    */
  lemma AnswerDecides(n: nat, outcome: Outcome)
    ensures SettledBy(n, outcome).Pending? <==> outcome.PoolNotSent?
    ensures SettledBy(n, outcome).Done? <==>
              outcome.Reply? && outcome.accepted == n && outcome.failed == 0 && outcome.errors == [] && outcome.ok
    ensures SettledBy(n, outcome).Partial? <==>
              && outcome.Reply? && outcome.failed > 0 && outcome.accepted + outcome.failed == n && !outcome.ok
              && |outcome.errors| == outcome.failed && (forall i :: i in outcome.errors ==> i < n)
              && forall i, j :: 0 <= i < j < |outcome.errors| ==> outcome.errors[i] != outcome.errors[j]
    ensures var to := SettledBy(n, outcome); to.Pending? || to.Done? || to.Partial? || to.Uncertain?
  {
    if outcome.Reply? { assert forall i :: 0 <= i < |outcome.errors| ==> outcome.errors[i] in outcome.errors; }
  }

  /** The records an answer confirms: those of a consistent reply that it does not list as errors. */
  lemma ConfirmedExactly(records: seq<Id>, outcome: Outcome, id: Id)
    ensures id in ConfirmedBy(records, outcome) <==>
              && (SettledBy(|records|, outcome).Done? || SettledBy(|records|, outcome).Partial?)
              && exists i :: 0 <= i < |records| && records[i] == id && i !in outcome.errors
  {}

  lemma OnlyPending(d: Disk, o: nat)
    requires DiskOk(d) && IsPending(d, o)
    ensures forall f :: f in d && f.order == o && !f.stage.Pending? ==> f.stage.Recovered?
  {}

  predicate Transmitted(outcome: Outcome) { outcome.Reply? || (outcome.PoolFailed? && outcome.transmitted) }

  /** The consistency test on a batch acknowledgement. */
  predicate ValidReply(n: nat, r: Outcome)
    requires r.Reply?
  {
    && r.accepted + r.failed == n && |r.errors| == r.failed
    && (forall i, j :: 0 <= i < j < |r.errors| ==> r.errors[i] != r.errors[j])
    && (forall i :: 0 <= i < |r.errors| ==> r.errors[i] < n)
    && r.ok == (r.failed == 0)
  }

  function SettledBy(n: nat, outcome: Outcome): Stage {
    if outcome.PoolNotSent? then Pending
    else if outcome.PoolFailed? || !ValidReply(n, outcome) then Uncertain
    else if outcome.failed != 0 then Partial else Done
  }

  function SettledStage(e: Event): Stage
    requires Settles(e)
  {
    if e.NotSent? then Pending else if e.PartialReply? then Partial else if e.Confirm? then Done else Uncertain
  }

  function AcceptedIds(records: seq<Id>, errors: seq<nat>): set<Id> {
    set i | 0 <= i < |records| && i !in errors :: records[i]
  }

  function ConfirmedBy(records: seq<Id>, outcome: Outcome): set<Id> {
    if outcome.Reply? && ValidReply(|records|, outcome) then AcceptedIds(records, outcome.errors) else {}
  }

  function Settlement(records: seq<Id>, outcome: Outcome): (e: Event)
    ensures Settles(e) && SettledStage(e) == SettledBy(|records|, outcome)
  {
    if outcome.PoolNotSent? then NotSent
    else if outcome.PoolFailed? then Failed
    else if !ValidReply(|records|, outcome) then BadReply
    else if outcome.failed != 0 then PartialReply(AcceptedIds(records, outcome.errors)) else Confirm
  }

  /** A step that neither creates, takes, sends nor returns a file only changes the journal. */
  lemma PlainStep(s: O.State, e: Event)
    requires Enabled(s.j, e) && (e.Append? || e.AppendFails? || e.DeleteDone?)
    ensures O.Enabled(s, O.Step(e)) && O.Next(s, O.Step(e)) == s.(j := Next(s.j, e))
  {}

  lemma SettleNext(s: O.State, e: Event)
    requires Enabled(s.j, e) && Settles(e)
    ensures O.Enabled(s, O.Step(e))
    ensures O.Next(s, O.Step(e)) == s.(j := Next(s.j, e), cache := if e.NotSent? then [] else s.cache)
  {}

  lemma SealStep(s: O.State)
    requires s.j.phase.Up? && s.j.active.Some? && Has(s.j, s.j.active.value, Open)
    ensures O.Enabled(s, O.Step(Event.Seal))
    ensures var o := s.j.active.value;
            O.Next(s, O.Step(Event.Seal))
            == s.(j := s.j.(disk := Move(s.j.disk, o, Open, Pending), active := None),
                  scan := if s.scan.Scanning? then O.Scanning(s.scan.before, s.scan.sealed + {o}) else s.scan)
  {}

  lemma CreateStep(s: State, o: nat)
    requires s.phase.Up? && s.active.None? && forall f :: f in s.disk ==> f.order < o
    ensures Enabled(s, Create(o))
    ensures Next(s, Create(o)) == s.(disk := s.disk[File(o, Open) := Content([], false)], active := Some(o))
  {}

  lemma CreateKeepsReadable(size: Id -> nat, d: Disk, o: nat)
    requires Readable(size, d)
    ensures Readable(size, d[File(o, Open) := Content([], false)])
  {}

  lemma AppendStep(s: State, e: Event, c: Content)
    requires s.phase.Up? && s.accepting && s.active.Some? && Has(s, s.active.value, Open)
    requires e.Append? || e.AppendFails?
    requires e.id !in s.journaled
    requires var was := s.disk[File(s.active.value, Open)];
             c == if e.AppendFails? && !e.whole then was.(torn := true) else was.(records := was.records + [e.id])
    ensures Enabled(s, e)
    ensures Next(s, e) == s.(disk := s.disk[File(s.active.value, Open) := c], journaled := s.journaled + {e.id},
                         appended := if e.Append? then s.appended + {e.id} else s.appended,
                         accepting := s.accepting && e.Append?)
  {}

  lemma WriteKeepsReadable(size: Id -> nat, d: Disk, f: File, c: Content, id: Id)
    requires Readable(size, d) && f in d && |d[f].records| < F.MAX_ENTRIES
    requires size(id) <= F.MAX_ENTRY && Total(size, d[f].records) + size(id) + 8 <= F.MAX_BATCH
    requires c.records == d[f].records || c.records == d[f].records + [id]
    ensures Readable(size, d[f := c]) && Admissible(size, d[f].records + [id])
    ensures c.records == d[f].records + [id] ==>
            Kept(d[f := c], id) && Total(size, c.records) == Total(size, d[f].records) + size(id) + 8
  {
    assert (d[f].records + [id])[..|d[f].records|] == d[f].records;
    assert d[f := c][f] == c && id in d[f].records + [id];
  }

  lemma ActiveFile(d: Disk, active: Option<nat>, accepting: bool, count: nat, bytes: nat, size: Id -> nat)
    requires ActiveOk(d, active, accepting, count, bytes, size) && active.Some?
    ensures var f := File(active.value, Open);
            f in d && (accepting ==> count == |d[f].records| && bytes == Total(size, d[f].records))
  {}

  lemma WriteKeepsActive(d: Disk, active: Option<nat>, count: nat, bytes: nat, size: Id -> nat, c: Content, id: Id,
                         good: bool)
    requires active.Some? && ActiveOk(d, active, true, count, bytes, size)
    requires good ==> c == d[File(active.value, Open)].(records := d[File(active.value, Open)].records + [id])
    requires good ==> Total(size, c.records) == bytes + size(id) + 8
    ensures good ==> ActiveOk(d[File(active.value, Open) := c], active, true, count + 1, bytes + size(id) + 8, size)
    ensures !good ==> ActiveOk(d[File(active.value, Open) := c], active, false, count, bytes, size)
  {
    hide Total;
  }

  lemma TakeStep(s: State, o: nat, to: Stage)
    requires s.phase.Up? && s.sender.Idle? && Has(s, o, Pending)
    requires to.Damaged? || (to.Inflight? && !s.disk[File(o, Pending)].torn)
    ensures var e := if to.Inflight? then Claim(o) else Unreadable(o);
            && Enabled(s, e)
            && Next(s, e) == s.(disk := Move(s.disk, o, Pending, to),
                                sender := if to.Inflight? then Claimed(o, false) else Idle)
  {}

  lemma SettleStep(s: State, e: Event)
    requires Enabled(s, e) && Settles(e)
    ensures s.sender.Claimed? && Has(s, s.sender.order, Inflight)
    ensures var s' := Next(s, e);
            s' == s.(disk := Move(s.disk, s.sender.order, Inflight, SettledStage(e)), sender := Idle,
              confirmed := s'.confirmed)
  {}

  lemma DeleteStep(s: State, o: nat)
    requires s.phase.Up? && Has(s, o, Done)
    ensures Enabled(s, DeleteDone(o)) && Next(s, DeleteDone(o)) == s.(disk := s.disk - {File(o, Done)})
  {}

  lemma DeleteKeepsReadable(size: Id -> nat, d: Disk, o: nat)
    requires Readable(size, d)
    ensures Readable(size, d - {File(o, Done)})
  {}

  lemma TransmitStep(s: State)
    requires s.phase.Up? && s.sender.Claimed? && !s.sender.transmitted && Has(s, s.sender.order, Inflight)
    ensures Enabled(s, Transmit)
    ensures Next(s, Transmit) == s.(sender := s.sender.(transmitted := true),
                                    sent := s.sent + multiset(s.disk[File(s.sender.order, Inflight)].records))
  {}

  lemma SettlementEnabled(s: State, records: seq<Id>, outcome: Outcome)
    requires s.phase.Up? && s.sender.Claimed? && Has(s, s.sender.order, Inflight)
    requires records == s.disk[File(s.sender.order, Inflight)].records && s.sender.transmitted == Transmitted(outcome)
    ensures var e := Settlement(records, outcome);
            Enabled(s, e) && Next(s, e).confirmed == s.confirmed + ConfirmedBy(records, outcome)
              && Next(s, e).sent == s.sent
  {
    if outcome.Reply? && ValidReply(|records|, outcome) {
      AcceptedAreRecords(records, outcome.errors);
    }
  }

  lemma AcceptedAreRecords(records: seq<Id>, errors: seq<nat>)
    ensures Ids(records) * AcceptedIds(records, errors) == AcceptedIds(records, errors)
    ensures errors == [] ==> AcceptedIds(records, errors) == Ids(records)
  {}

  lemma MoveKeepsActive(d: Disk, active: Option<nat>, accepting: bool, count: nat, bytes: nat, size: Id -> nat,
                        o: nat, from: Stage, to: Stage)
    requires ActiveOk(d, active, accepting, count, bytes, size) && File(o, from) in d && !from.Open? && !to.Open?
    ensures ActiveOk(Move(d, o, from, to), active, accepting, count, bytes, size)
  {}

  // ---- The bytes of the files ----

  /** How records are written: `size` is the length of a record's JSON text. */
  ghost predicate Encodes<R>(fmt: F.Format<R>, encode: Id -> Bytes, size: Id -> nat) {
    forall id :: |encode(id)| == size(id) >= 1 && fmt.crc(encode(id)) < F.INT && fmt.decode(encode(id)).Some?
  }

  function Payloads(encode: Id -> Bytes, records: seq<Id>): (p: seq<Bytes>)
    ensures |p| == |records| && forall i :: 0 <= i < |p| ==> p[i] == encode(records[i])
  {
    seq(|records|, i requires 0 <= i < |records| => encode(records[i]))
  }

  lemma {:induction false} TotalIsLength<R>(fmt: F.Format<R>, encode: Id -> Bytes, size: Id -> nat, records: seq<Id>)
    requires Encodes(fmt, encode, size)
    ensures |F.Stream(fmt, Payloads(encode, records))| == Total(size, records)
  {
    hide F.Frame;
    if records != [] {
      var init, last := records[..|records| - 1], records[|records| - 1];
      TotalIsLength(fmt, encode, size, init);
      assert Payloads(encode, records) == Payloads(encode, init) + [encode(last)];
      F.StreamAppend(fmt, Payloads(encode, init), [encode(last)]);
      F.OneFrame(fmt, encode(last));
    }
  }

  lemma {:induction false} TotalGrows(size: Id -> nat, records: seq<Id>, n: nat)
    requires n <= |records|
    ensures Total(size, records[..n]) <= Total(size, records)
  {
    if n < |records| {
      var init := records[..|records| - 1];
      assert init[..n] == records[..n];
      TotalGrows(size, init, n);
    } else {
      assert records[..n] == records;
    }
  }

  /** Every file the journal writes is one the framing calls admitted. */
  lemma FileIsAdmitted<R>(fmt: F.Format<R>, encode: Id -> Bytes, size: Id -> nat, records: seq<Id>)
    requires Encodes(fmt, encode, size) && Admissible(size, records)
    ensures F.Admitted(fmt, Payloads(encode, records))
  {
    hide F.Stream, Total;
    var payloads := Payloads(encode, records);
    forall n | 1 < n <= |payloads| ensures |F.Stream(fmt, payloads[..n])| <= F.MAX_BATCH {
      assert payloads[..n] == Payloads(encode, records[..n]);
      TotalIsLength(fmt, encode, size, records[..n]);
      TotalGrows(size, records, n);
    }
    forall p | p in payloads ensures F.Writable(fmt, p) {
      var i :| 0 <= i < |payloads| && payloads[i] == p;
      assert records[i] in records;
    }
  }

  /** A file on the journal's disk reads back as its records, whole or with the frame that was being written cut off. */
  lemma FileReadsBack<R>(fmt: F.Format<R>, encode: Id -> Bytes, size: Id -> nat, records: seq<Id>,
                         last: Option<Id>, k: nat)
    requires Encodes(fmt, encode, size)
    requires if last.None? then Admissible(size, records)
             else Admissible(size, records + [last.value]) && 0 < k < size(last.value) + 8
    ensures forall p :: p in Payloads(encode, records) ==> fmt.decode(p).Some?
    ensures var payloads := Payloads(encode, records);
            var bytes := F.Stream(fmt, payloads) + if last.None? then [] else F.Frame(fmt, encode(last.value))[..k];
            && F.ReadFile(fmt, bytes, true) == F.Entries(F.Records(fmt, payloads))
            && F.ReadFile(fmt, bytes, false) == if last.Some? then F.Unreadable else F.Entries(F.Records(fmt, payloads))
  {
    hide F.Stream, F.Frame, F.ReadFile, F.Admitted, Admissible;
    var payloads := Payloads(encode, records);
    if last.None? {
      FileIsAdmitted(fmt, encode, size, records);
      assert F.Stream(fmt, payloads) + [] == F.Stream(fmt, payloads);
      F.FileReads(fmt, payloads, false, F.Stream(fmt, payloads));
    } else {
      var bytes := F.Stream(fmt, payloads) + F.Frame(fmt, encode(last.value))[..k];
      FileIsAdmitted(fmt, encode, size, records + [last.value]);
      assert Payloads(encode, records + [last.value]) == payloads + [encode(last.value)];
      assert F.TornAt(fmt, payloads, encode(last.value), k, bytes);
      F.FileReads(fmt, payloads, true, bytes);
    }
  }
}
