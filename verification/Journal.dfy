/**
  The crash-safe write journal of the Kotlin client as a protocol: every file creation, write, rename
  and removal of WriteJournal, its recovery and the send loop is one atomic step, and the process may
  die between any two of them.
  */
module Journal {
  import opened Options

  type Id = nat

  /** The extension of a journal file. */
  datatype Stage = Open | Pending | Inflight | Done | Partial | Uncertain | Damaged | Recovered | Rebuild

  /** A file name: the creation order it starts with, and its extension. */
  datatype File = File(order: nat, stage: Stage)

  /** Whole frames of a file, and whether a broken frame follows them. */
  datatype Content = Content(records: seq<Id>, torn: bool)

  type Disk = map<File, Content>

  datatype Phase = Down | Recovering | Up

  /** The batch the send loop has claimed, and whether its bytes may have left the client. */
  datatype Sender = Idle | Claimed(order: nat, transmitted: bool)

  datatype State = State(
    disk: Disk,
    phase: Phase, active: Option<nat>, accepting: bool, rebuilding: Option<nat>, sender: Sender,   // lost in a crash
    journaled: set<Id>, appended: set<Id>, sent: multiset<Id>, confirmed: set<Id>)               // history

  datatype Event =
    // start and recovery, in any order of files
    | Start | RecoverInflight(order: nat) | RecoverUnreadable(order: nat) | RecoverOpen(order: nat)
    | WriteRebuild(order: nat, count: nat) | MoveRebuild(order: nat) | Started
    // admission
    | Create(order: nat) | Append(id: Id) | AppendFails(id: Id, whole: bool) | Seal | StopAdmission
    // the send loop
    | Unreadable(order: nat) | Claim(order: nat) | Transmit | NotSent | Failed | BadReply
    | PartialReply(accepted: set<Id>) | Confirm | DeleteDone(order: nat)
    | Crash

  function Move(disk: Disk, order: nat, from: Stage, to: Stage): Disk
    requires File(order, from) in disk
  {
    (disk - {File(order, from)})[File(order, to) := disk[File(order, from)]]
  }

  predicate Has(s: State, order: nat, stage: Stage) { File(order, stage) in s.disk }

  predicate Sends(s: State) {
    s.phase.Up? && s.sender.Claimed? && Has(s, s.sender.order, Inflight)
  }

  predicate Enabled(s: State, e: Event) {
    match e
    case Start => s.phase.Down?
    case RecoverInflight(o) => s.phase.Recovering? && s.rebuilding.None? && Has(s, o, Inflight)
    case RecoverUnreadable(o) => s.phase.Recovering? && s.rebuilding.None? && Has(s, o, Open)
    case RecoverOpen(o) => s.phase.Recovering? && s.rebuilding.None? && Has(s, o, Open)
    case WriteRebuild(o, count) =>
      s.phase.Recovering? && s.rebuilding == Some(o) && Has(s, o, Recovered)
        && count <= |s.disk[File(o, Recovered)].records|
    case MoveRebuild(o) =>
      s.phase.Recovering? && s.rebuilding == Some(o) && Has(s, o, Recovered) && Has(s, o, Rebuild)
      && s.disk[File(o, Rebuild)] == Content(s.disk[File(o, Recovered)].records, false)
    case Started => s.phase.Recovering?
    case Create(o) => s.phase.Up? && s.active.None? && forall f :: f in s.disk ==> f.order < o
    case Append(id) => s.phase.Up? && s.accepting && s.active.Some? && Has(s, s.active.value, Open)
      && id !in s.journaled
    case AppendFails(id, _) => s.phase.Up? && s.accepting && s.active.Some? && Has(s, s.active.value, Open)
      && id !in s.journaled
    case Seal => s.phase.Up? && s.active.Some? && Has(s, s.active.value, Open)
    case StopAdmission => s.phase.Up?
    case Unreadable(o) => s.phase.Up? && s.sender.Idle? && Has(s, o, Pending)
    case Claim(o) => s.phase.Up? && s.sender.Idle? && Has(s, o, Pending) && !s.disk[File(o, Pending)].torn
    case Transmit => Sends(s) && !s.sender.transmitted
    case NotSent => Sends(s) && !s.sender.transmitted
    case Failed => Sends(s)
    case BadReply => Sends(s) && s.sender.transmitted
    case PartialReply(_) => Sends(s) && s.sender.transmitted
    case Confirm => Sends(s) && s.sender.transmitted
    case DeleteDone(o) => !s.phase.Down? && Has(s, o, Done)
    case Crash => true
  }

  function Batch(s: State): seq<Id>
    requires Sends(s)
  {
    s.disk[File(s.sender.order, Inflight)].records
  }

  /** The claimed file leaves the inflight stage. */
  function Settle(s: State, to: Stage): State
    requires Sends(s)
  {
    s.(disk := Move(s.disk, s.sender.order, Inflight, to), sender := Idle)
  }

  function Ids(records: seq<Id>): set<Id> { set id | id in records }

  function Next(s: State, e: Event): State
    requires Enabled(s, e)
  {
    match e
    case Start => s.(phase := Recovering)
    case RecoverInflight(o) => s.(disk := Move(s.disk, o, Inflight, Uncertain))
    case RecoverUnreadable(o) => s.(disk := Move(s.disk, o, Open, Damaged))
    case RecoverOpen(o) =>
      s.(disk := Move(s.disk, o, Open, Recovered),
      rebuilding := if s.disk[File(o, Open)].records == [] then None else Some(o))
    case WriteRebuild(o, count) =>
      s.(disk := s.disk[File(o, Rebuild) := Content(s.disk[File(o, Recovered)].records[..count], false)])
    case MoveRebuild(o) => s.(disk := Move(s.disk, o, Rebuild, Pending), rebuilding := None)
    case Started => s.(phase := Up, accepting := true, rebuilding := None)
    case Create(o) => s.(disk := s.disk[File(o, Open) := Content([], false)], active := Some(o))
    case Append(id) =>
      var f := File(s.active.value, Open);
      s.(disk := s.disk[f := s.disk[f].(records := s.disk[f].records + [id])],
      journaled := s.journaled + {id}, appended := s.appended + {id})
    case AppendFails(id, whole) =>
      var f := File(s.active.value, Open);
      var c := if whole then s.disk[f].(records := s.disk[f].records + [id]) else s.disk[f].(torn := true);
      s.(disk := s.disk[f := c], journaled := s.journaled + {id}, accepting := false)
    case Seal => s.(disk := Move(s.disk, s.active.value, Open, Pending), active := None)
    case StopAdmission => s.(accepting := false)
    case Unreadable(o) => s.(disk := Move(s.disk, o, Pending, Damaged))
    case Claim(o) => s.(disk := Move(s.disk, o, Pending, Inflight), sender := Claimed(o, false))
    case Transmit => s.(sender := s.sender.(transmitted := true), sent := s.sent + multiset(Batch(s)))
    case NotSent => Settle(s, Pending)
    case Failed => Settle(s, Uncertain)
    case BadReply => Settle(s, Uncertain)
    case PartialReply(accepted) => Settle(s, Partial).(confirmed := s.confirmed + Ids(Batch(s)) * accepted)
    case Confirm => Settle(s, Done).(confirmed := s.confirmed + Ids(Batch(s)))
    case DeleteDone(o) => s.(disk := s.disk - {File(o, Done)})
    case Crash => s.(phase := Down, active := None, accepting := false, rebuilding := None, sender := Idle)
  }

  predicate Init(s: State) {
    && s.disk == map[] && s.phase.Down? && s.active.None? && s.rebuilding.None? && s.sender.Idle? && !s.accepting
    && s.journaled == {} && s.appended == {} && s.sent == multiset{} && s.confirmed == {}
  }

  // ---- What holds on disk and in the history ----

  ghost predicate OneChain(d: Disk) {
    forall f, g :: f in d && g in d && f.order == g.order && !f.stage.Recovered? && !g.stage.Recovered? ==> f == g
  }

  ghost predicate OneOrder(d: Disk) {
    forall f, g, id :: f in d && g in d && id in d[f].records && id in d[g].records ==> f.order == g.order
  }

  ghost predicate Distinct(records: seq<Id>) { forall i, j :: 0 <= i < j < |records| ==> records[i] != records[j] }

  ghost predicate DiskOk(d: Disk) {
    && OneChain(d) && OneOrder(d)
    && (forall f :: f in d ==> Distinct(d[f].records))
    && (forall f :: f in d && f.stage.Rebuild? ==>
          File(f.order, Recovered) in d && d[f].records <= d[File(f.order, Recovered)].records)
    && (forall f :: f in d && f.stage.Open? ==> File(f.order, Recovered) !in d)
  }

  ghost predicate Unsent(sent: multiset<Id>, records: seq<Id>) { forall id :: id in records ==> sent[id] == 0 }

  ghost predicate Kept(d: Disk, id: Id) { exists f :: f in d && id in d[f].records }

  /** Nothing that may still be sent has been sent, and nothing was sent twice. */
  ghost predicate SentOk(s: State) {
    && (forall id :: s.sent[id] <= 1)
    && (forall id :: s.sent[id] > 0 ==> id in s.journaled)
    && (forall f :: f in s.disk && (f.stage.Open? || f.stage.Pending?) ==> Unsent(s.sent, s.disk[f].records))
    && (s.sender.Claimed? && !s.sender.transmitted && Has(s, s.sender.order, Inflight)
        ==> Unsent(s.sent, s.disk[File(s.sender.order, Inflight)].records))
    && (s.rebuilding.Some? && Has(s, s.rebuilding.value, Recovered)
        ==> Unsent(s.sent, s.disk[File(s.rebuilding.value, Recovered)].records))
  }

  /** Every record whose append completed is confirmed or still in a file. */
  ghost predicate KeptOk(s: State) {
    && s.appended <= s.journaled
    && (forall f :: f in s.disk ==> Ids(s.disk[f].records) <= s.journaled)
    && (forall f :: f in s.disk && f.stage.Done? ==> Ids(s.disk[f].records) <= s.confirmed)
    && (forall id :: id in s.appended && id !in s.confirmed ==> Kept(s.disk, id))
  }

  ghost predicate VolatileOk(s: State) {
    && (s.phase.Up? || (s.active.None? && s.sender.Idle?))
    && (s.phase.Recovering? || s.rebuilding.None?)
    && (s.rebuilding.Some? ==> forall f :: f in s.disk && f.order == s.rebuilding.value ==>
       f.stage.Recovered? || f.stage.Rebuild?)
  }

  ghost predicate Inv(s: State) { DiskOk(s.disk) && SentOk(s) && KeptOk(s) && VolatileOk(s) }

  // ---- Renames ----

  /** The renames the code makes, other than setting an open file aside for its rebuild. */
  predicate Forward(from: Stage, to: Stage) {
    !from.Recovered? && !to.Recovered? && !to.Open? && !to.Rebuild?
  }

  lemma MoveKeepsDisk(d: Disk, o: nat, from: Stage, to: Stage)
    requires DiskOk(d) && File(o, from) in d && (Forward(from, to) || (from.Open? && to.Recovered?))
    ensures DiskOk(Move(d, o, from, to))
  {
    var d' := Move(d, o, from, to);
    forall f, g, id | f in d' && g in d' && id in d'[f].records && id in d'[g].records ensures f.order == g.order {
      var f0, g0 := if f == File(o, to) then File(o, from) else f, if g == File(o, to) then File(o, from) else g;
      assert id in d[f0].records && id in d[g0].records;
    }
  }

  lemma MoveKeepsRecords(d: Disk, o: nat, from: Stage, to: Stage, id: Id)
    requires DiskOk(d) && File(o, from) in d && (Forward(from, to) || (from.Open? && to.Recovered?)) && Kept(d, id)
    ensures Kept(Move(d, o, from, to), id)
  {
    var f :| f in d && id in d[f].records;
    var d' := Move(d, o, from, to);
    var g := if f == File(o, from) then File(o, to) else f;
    assert g in d' && id in d'[g].records;
  }

  /** A state that differs by one rename and by volatile fields. */
  ghost predicate Renamed(s: State, s': State, o: nat, from: Stage, to: Stage) {
    && File(o, from) in s.disk && (Forward(from, to) || (from.Open? && to.Recovered?))
    && s'.disk == Move(s.disk, o, from, to)
    && s'.sent == s.sent && s'.appended == s.appended && s'.journaled == s.journaled && s.confirmed <= s'.confirmed
  }

  lemma RenameKeepsKept(s: State, s': State, o: nat, from: Stage, to: Stage)
    requires DiskOk(s.disk) && KeptOk(s) && Renamed(s, s', o, from, to)
    requires to.Done? ==> Ids(s.disk[File(o, from)].records) <= s'.confirmed
    ensures KeptOk(s')
  {
    hide DiskOk, Kept, Ids;
    forall id | id in s'.appended && id !in s'.confirmed ensures Kept(s'.disk, id) {
      MoveKeepsRecords(s.disk, o, from, to, id);
    }
  }

  lemma RenameKeepsSent(s: State, s': State, o: nat, from: Stage, to: Stage)
    requires SentOk(s) && Renamed(s, s', o, from, to)
    requires to.Pending? || to.Recovered? ==> Unsent(s.sent, s.disk[File(o, from)].records)
    requires || s'.sender.Idle? || (s'.sender == s.sender && !to.Inflight?)
             || (s'.sender == Claimed(o, false) && to.Inflight? && Unsent(s.sent, s.disk[File(o, from)].records))
    requires s'.rebuilding.None? || s'.rebuilding == s.rebuilding || (s'.rebuilding == Some(o) && to.Recovered?)
    ensures SentOk(s')
  {}

  lemma RenameKeepsInv(s: State, s': State, o: nat, from: Stage, to: Stage)
    requires Inv(s) && Renamed(s, s', o, from, to) && VolatileOk(s') && SentOk(s')
    requires to.Done? ==> Ids(s.disk[File(o, from)].records) <= s'.confirmed
    ensures Inv(s')
  {
    hide DiskOk, SentOk, KeptOk, VolatileOk;
    MoveKeepsDisk(s.disk, o, from, to);
    RenameKeepsKept(s, s', o, from, to);
  }

  // ---- Steps ----

  predicate Recovers(e: Event) { e.RecoverInflight? || e.RecoverUnreadable? || e.RecoverOpen? || e.MoveRebuild? }

  predicate Settles(e: Event) { e.NotSent? || e.Failed? || e.BadReply? || e.PartialReply? || e.Confirm? }

  predicate Plain(e: Event) { e.Start? || e.Started? || e.StopAdmission? || e.Crash? }

  lemma PlainKeepsInv(s: State, e: Event)
    requires Inv(s) && Enabled(s, e) && Plain(e)
    ensures Inv(Next(s, e))
  {
    hide DiskOk, Kept, Unsent, Ids;
  }

  lemma RecoverKeepsInv(s: State, e: Event)
    requires Inv(s) && Enabled(s, e) && Recovers(e)
    ensures Inv(Next(s, e))
  {
    hide Unsent, Kept, Ids, Distinct, OneOrder;
    var s', o := Next(s, e), e.order;
    var from := if e.RecoverInflight? then Inflight else if e.MoveRebuild? then Rebuild else Open;
    var to := if e.RecoverInflight? then Uncertain else if e.MoveRebuild? then Pending
      else if e.RecoverOpen? then Recovered else Damaged;
    RenameKeepsSent(s, s', o, from, to);
    RenameKeepsInv(s, s', o, from, to);
  }

  lemma SealKeepsInv(s: State)
    requires Inv(s) && Enabled(s, Seal)
    ensures Inv(Next(s, Seal))
  {
    hide DiskOk, KeptOk, Unsent;
    var s' := Next(s, Seal);
    RenameKeepsSent(s, s', s.active.value, Open, Pending);
    RenameKeepsInv(s, s', s.active.value, Open, Pending);
  }

  lemma TakeKeepsInv(s: State, e: Event)
    requires Inv(s) && Enabled(s, e) && (e.Unreadable? || e.Claim?)
    ensures Inv(Next(s, e))
  {
    hide DiskOk, KeptOk, Unsent;
    var s', to := Next(s, e), if e.Claim? then Inflight else Damaged;
    RenameKeepsSent(s, s', e.order, Pending, to);
    RenameKeepsInv(s, s', e.order, Pending, to);
  }

  lemma SettleKeepsInv(s: State, e: Event)
    requires Inv(s) && Enabled(s, e) && Settles(e)
    ensures Inv(Next(s, e))
  {
    hide DiskOk, KeptOk, Unsent;
    var s', o := Next(s, e), s.sender.order;
    var to := if e.NotSent? then Pending else if e.PartialReply? then Partial else if e.Confirm? then Done
      else Uncertain;
    RenameKeepsSent(s, s', o, Inflight, to);
    RenameKeepsInv(s, s', o, Inflight, to);
  }

  lemma {:induction false} SubsequenceIds(a: seq<Id>, b: seq<Id>)
    requires a <= b
    ensures forall id :: id in a ==> id in b
    ensures Distinct(b) ==> Distinct(a)
  {
    assert forall i :: 0 <= i < |a| ==> a[i] == b[i];
  }

  /** A state that differs by the content of one open or rebuilt file, by new ids and by volatile fields. */
  ghost predicate Written(s: State, s': State, f: File, c: Content) {
    && (f.stage.Open? || f.stage.Rebuild?)
    && s'.disk == s.disk[f := c] && s'.sent == s.sent && s'.confirmed == s.confirmed
    && s.journaled <= s'.journaled && s'.sender == s.sender && s'.rebuilding == s.rebuilding
  }

  lemma WriteKeepsSent(s: State, s': State, f: File, c: Content)
    requires SentOk(s) && Written(s, s', f, c) && (f.stage.Open? ==> Unsent(s.sent, c.records))
    ensures SentOk(s')
  {
    hide Unsent;
  }

  lemma WriteKeepsKept(s: State, s': State, f: File, c: Content)
    requires KeptOk(s) && Written(s, s', f, c)
    requires Ids(c.records) <= s'.journaled && s.appended <= s'.appended <= s.appended + Ids(c.records)
    requires f in s.disk ==> forall id :: id in s.disk[f].records ==> Kept(s'.disk, id)
    ensures KeptOk(s')
  {
    forall id | id in s'.appended && id !in s'.confirmed ensures Kept(s'.disk, id) {
      if id in c.records {
        assert id in s'.disk[f].records;
      } else {
        var a :| a in s.disk && id in s.disk[a].records;
        if a != f { assert id in s'.disk[a].records; }
      }
    }
    hide Kept;
  }

  lemma WriteKeepsInv(s: State, s': State, f: File, c: Content)
    requires Inv(s) && Written(s, s', f, c) && DiskOk(s'.disk) && VolatileOk(s')
    requires f.stage.Open? ==> Unsent(s.sent, c.records)
    requires Ids(c.records) <= s'.journaled && s.appended <= s'.appended <= s.appended + Ids(c.records)
    requires f in s.disk ==> forall id :: id in s.disk[f].records ==> Kept(s'.disk, id)
    ensures Inv(s')
  {
    hide DiskOk, SentOk, KeptOk, VolatileOk;
    WriteKeepsSent(s, s', f, c);
    WriteKeepsKept(s, s', f, c);
  }

  lemma RebuildKeepsDisk(d: Disk, o: nat, c: Content)
    requires DiskOk(d) && File(o, Recovered) in d && c.records <= d[File(o, Recovered)].records
    requires forall f :: f in d && f.order == o ==> f.stage.Recovered? || f.stage.Rebuild?
    ensures DiskOk(d[File(o, Rebuild) := c])
    ensures forall id :: id in c.records ==> id in d[File(o, Recovered)].records
  {
    var f, g := File(o, Rebuild), File(o, Recovered);
    var d' := d[f := c];
    SubsequenceIds(c.records, d[g].records);
    forall a, b, id | a in d' && b in d' && id in d'[a].records && id in d'[b].records ensures a.order == b.order {
      assert id in d[if a == f then g else a].records && id in d[if b == f then g else b].records;
    }
  }

  lemma WriteRebuildKeepsInv(s: State, o: nat, count: nat)
    requires Inv(s) && Enabled(s, WriteRebuild(o, count))
    ensures Inv(Next(s, WriteRebuild(o, count)))
  {
    var s' := Next(s, WriteRebuild(o, count));
    var d, d', f, g := s.disk, s'.disk, File(o, Rebuild), File(o, Recovered);
    RebuildKeepsDisk(d, o, d'[f]);
    assert Ids(d[g].records) <= s.journaled;
    if f in d {
      SubsequenceIds(d[f].records, d[g].records);
      forall id | id in d[f].records ensures Kept(d', id) { assert id in d'[g].records; }
    }
    hide DiskOk, SentOk, KeptOk, Kept;
    WriteKeepsInv(s, s', f, d'[f]);
  }

  lemma CreateKeepsDisk(d: Disk, f: File)
    requires DiskOk(d) && f.stage.Open? && forall g :: g in d ==> g.order < f.order
    ensures DiskOk(d[f := Content([], false)])
  {
    assert Distinct([]);
  }

  lemma CreateKeepsInv(s: State, o: nat)
    requires Inv(s) && Enabled(s, Create(o))
    ensures Inv(Next(s, Create(o)))
  {
    hide DiskOk, SentOk, KeptOk, Kept;
    CreateKeepsDisk(s.disk, File(o, Open));
    WriteKeepsInv(s, Next(s, Create(o)), File(o, Open), Content([], false));
  }

  /** The active file's content grows by at most one new record. */
  lemma AppendKeepsDisk(d: Disk, f: File, c: Content, id: Id)
    requires DiskOk(d) && f in d && f.stage.Open? && (forall g :: g in d ==> id !in d[g].records)
    requires c.records == d[f].records || c.records == d[f].records + [id]
    ensures DiskOk(d[f := c])
  {
    var d' := d[f := c];
    forall a, b, i | a in d' && b in d' && i in d'[a].records && i in d'[b].records ensures a.order == b.order {
      if i != id { assert i in d[a].records && i in d[b].records; }
    }
  }

  lemma NewId(s: State, f: File, id: Id)
    requires KeptOk(s) && SentOk(s) && id !in s.journaled && f in s.disk
    ensures id !in s.disk[f].records && s.sent[id] == 0
  {
    hide Kept, Unsent;
    assert Ids(s.disk[f].records) <= s.journaled;
  }

  lemma AppendKeepsInv(s: State, e: Event)
    requires Inv(s) && Enabled(s, e) && (e.Append? || e.AppendFails?)
    ensures Inv(Next(s, e))
  {
    hide DiskOk, SentOk, KeptOk, Kept;
    var s', f := Next(s, e), File(s.active.value, Open);
    var d, d' := s.disk, s'.disk;
    forall g | g in d ensures e.id !in d[g].records { NewId(s, g, e.id); }
    AppendKeepsDisk(d, f, d'[f], e.id);
    AppendFacts(s, s', f, e.id);
    WriteKeepsInv(s, s', f, d'[f]);
  }

  lemma AppendFacts(s: State, s': State, f: File, id: Id)
    requires SentOk(s) && KeptOk(s) && f in s.disk && f.stage.Open? && f in s'.disk && id !in s.journaled
    requires s'.disk[f].records == s.disk[f].records || s'.disk[f].records == s.disk[f].records + [id]
    ensures Unsent(s.sent, s'.disk[f].records)
    ensures Ids(s'.disk[f].records) <= s.journaled + {id}
    ensures forall i :: i in s.disk[f].records ==> Kept(s'.disk, i)
  {
    NewId(s, f, id);
    assert Unsent(s.sent, s.disk[f].records) && Ids(s.disk[f].records) <= s.journaled;
    forall i | i in s.disk[f].records ensures Kept(s'.disk, i) { assert i in s'.disk[f].records; }
  }

  lemma {:induction false} DistinctCounts(records: seq<Id>, id: Id)
    requires Distinct(records)
    ensures multiset(records)[id] == if id in records then 1 else 0
  {
    if records != [] {
      var init, last := records[..|records| - 1], records[|records| - 1];
      assert records == init + [last];
      DistinctCounts(init, id);
    }
  }

  lemma TransmitKeepsInv(s: State)
    requires Inv(s) && Enabled(s, Transmit)
    ensures Inv(Next(s, Transmit))
  {
    hide DiskOk, KeptOk, Unsent, Distinct;
    var s', f := Next(s, Transmit), File(s.sender.order, Inflight);
    TransmitCounts(s, f);
    forall g | g in s.disk && (g.stage.Open? || g.stage.Pending?) ensures Unsent(s'.sent, s.disk[g].records) {
      OthersStayUnsent(s.disk, f, g, s.sent);
    }
    SameKept(s, s');
  }

  lemma SameKept(s: State, s': State)
    requires KeptOk(s) && s'.disk == s.disk && s'.appended == s.appended && s'.journaled == s.journaled
             && s'.confirmed == s.confirmed
    ensures KeptOk(s')
  {
    hide Kept, Ids;
  }

  lemma TransmitCounts(s: State, f: File)
    requires DiskOk(s.disk) && KeptOk(s) && SentOk(s) && f in s.disk && Unsent(s.sent, s.disk[f].records)
    ensures var sent := s.sent + multiset(s.disk[f].records);
            forall id :: sent[id] <= 1 && (sent[id] > 0 ==> id in s.journaled)
  {
    hide Kept, OneChain, OneOrder;
    assert Ids(s.disk[f].records) <= s.journaled;
    var sent := s.sent + multiset(s.disk[f].records);
    forall id ensures sent[id] <= 1 && (sent[id] > 0 ==> id in s.journaled) {
      DistinctCounts(s.disk[f].records, id);
    }
  }

  lemma OthersStayUnsent(d: Disk, f: File, g: File, sent: multiset<Id>)
    requires DiskOk(d) && f in d && g in d && f.stage.Inflight? && (g.stage.Open? || g.stage.Pending?)
    requires Unsent(sent, d[g].records)
    ensures Unsent(sent + multiset(d[f].records), d[g].records)
  {
    hide Distinct;
    forall id | id in d[g].records ensures (sent + multiset(d[f].records))[id] == 0 {
      assert id in d[f].records ==> g.order == f.order;
    }
  }

  lemma DeleteDoneKeepsInv(s: State, o: nat)
    requires Inv(s) && Enabled(s, DeleteDone(o))
    ensures Inv(Next(s, DeleteDone(o)))
  {
    hide Kept, Distinct, Unsent, DiskOk, Ids;
    DeleteKeepsDisk(s.disk, o);
    forall id | id in s.appended && id !in s.confirmed ensures Kept(Next(s, DeleteDone(o)).disk, id) {
      DeleteKeepsRecord(s, o, id);
    }
  }

  lemma DeleteKeepsDisk(d: Disk, o: nat)
    requires DiskOk(d)
    ensures DiskOk(d - {File(o, Done)})
  {
    hide Distinct;
  }

  lemma DeleteKeepsRecord(s: State, o: nat, id: Id)
    requires KeptOk(s) && Has(s, o, Done) && id in s.appended && id !in s.confirmed
    ensures Kept(s.disk - {File(o, Done)}, id)
  {
    var d, d', f := s.disk, s.disk - {File(o, Done)}, File(o, Done);
    assert id !in Ids(d[f].records);
    var a :| a in d && id in d[a].records;
    assert a in d' && id in d'[a].records;
  }

  lemma StepKeepsInv(s: State, e: Event)
    requires Inv(s) && Enabled(s, e)
    ensures Inv(Next(s, e))
  {
    hide Inv, Enabled, Next;
    if Plain(e) {
      PlainKeepsInv(s, e);
    } else if Recovers(e) {
      RecoverKeepsInv(s, e);
    } else if Settles(e) {
      SettleKeepsInv(s, e);
    } else {
      match e
      case WriteRebuild(o, count) => WriteRebuildKeepsInv(s, o, count);
      case Create(o) => CreateKeepsInv(s, o);
      case Append(_) => AppendKeepsInv(s, e);
      case AppendFails(_, _) => AppendKeepsInv(s, e);
      case Seal => SealKeepsInv(s);
      case Unreadable(_) => TakeKeepsInv(s, e);
      case Claim(_) => TakeKeepsInv(s, e);
      case Transmit => TransmitKeepsInv(s);
      case DeleteDone(o) => DeleteDoneKeepsInv(s, o);
    }
  }

  // ---- Whole runs ----

  predicate Legal(s: State, events: seq<Event>)
    decreases |events|
  {
    events == [] || (Enabled(s, events[0]) && Legal(Next(s, events[0]), events[1..]))
  }

  function Run(s: State, events: seq<Event>): State
    requires Legal(s, events)
    decreases |events|
  {
    if events == [] then s else Run(Next(s, events[0]), events[1..])
  }

  lemma {:induction false} RunKeepsInv(s: State, events: seq<Event>)
    requires Inv(s) && Legal(s, events)
    ensures Inv(Run(s, events))
    decreases |events|
  {
    hide Inv, Enabled, Next;
    if events != [] {
      StepKeepsInv(s, events[0]);
      RunKeepsInv(Next(s, events[0]), events[1..]);
    }
  }

  /** Across crashes, restarts and failures, no record goes out in two batches whose bytes may have left. */
  lemma SentAtMostOnce(s: State, events: seq<Event>, id: Id)
    requires Init(s) && Legal(s, events)
    ensures Run(s, events).sent[id] <= 1
  {
    RunKeepsInv(s, events);
  }

  /** A record whose append completed stays in some file until the server has confirmed it. */
  lemma KeptUntilConfirmed(s: State, events: seq<Event>, id: Id)
    requires Init(s) && Legal(s, events) && id in Run(s, events).appended
    ensures id in Run(s, events).confirmed || Kept(Run(s, events).disk, id)
  {
    RunKeepsInv(s, events);
  }

  lemma {:induction false} RunAppend(s: State, a: seq<Event>, b: seq<Event>)
    requires Legal(s, a) && Legal(Run(s, a), b)
    ensures Legal(s, a + b) && Run(s, a + b) == Run(Run(s, a), b)
    decreases |a|
  {
    hide Enabled, Next;
    if a == [] {
      assert a + b == b;
    } else {
      assert (a + b)[1..] == a[1..] + b;
      RunAppend(Next(s, a[0]), a[1..], b);
    }
  }

  lemma NoStep(s: State)
    ensures Legal(s, []) && Run(s, []) == s
  {}

  lemma OneStep(s: State, e: Event)
    requires Enabled(s, e)
    ensures Legal(s, [e]) && Run(s, [e]) == Next(s, e)
  {
    hide Enabled, Next;
    assert [e][1..] == [];
  }

  // ---- Which failures may be retried ----

  /** The claimed batch lies whole in its inflight file, and counts as sent once transmitted. */
  ghost predicate FlightOk(s: State) {
    s.sender.Claimed? ==>
      && Has(s, s.sender.order, Inflight) && !s.disk[File(s.sender.order, Inflight)].torn
      && (s.sender.transmitted ==> forall id :: id in s.disk[File(s.sender.order, Inflight)].records ==> s.sent[id] > 0)
  }

  lemma StepKeepsFlight(s: State, e: Event)
    requires Inv(s) && FlightOk(s) && Enabled(s, e)
    ensures FlightOk(Next(s, e))
  {
    hide SentOk, KeptOk, OneOrder, Distinct, Ids;
  }

  lemma {:induction false} RunKeepsFlight(s: State, events: seq<Event>)
    requires Inv(s) && FlightOk(s) && Legal(s, events)
    ensures FlightOk(Run(s, events)) && Inv(Run(s, events))
    decreases |events|
  {
    hide Inv, FlightOk, Enabled, Next;
    if events != [] {
      StepKeepsInv(s, events[0]);
      StepKeepsFlight(s, events[0]);
      RunKeepsFlight(Next(s, events[0]), events[1..]);
    }
  }

  /** No continuation ever sends a record twice. */
  ghost predicate NeverTwice(s: State) {
    forall events, id :: Legal(s, events) ==> Run(s, events).sent[id] <= 1
  }

  lemma InvNeverTwice(s: State)
    requires Inv(s)
    ensures NeverTwice(s)
  {
    forall events, id | Legal(s, events) ensures Run(s, events).sent[id] <= 1 { RunKeepsInv(s, events); }
  }

  /** Putting a transmitted batch back sends it again. */
  lemma RequeueSendsAgain(s: State, id: Id)
    requires Sends(s) && FlightOk(s) && s.sender.transmitted && id in Batch(s)
    ensures !NeverTwice(Settle(s, Pending))
  {
    var s0 := Settle(s, Pending);
    var claim := Claim(s.sender.order);
    var s1 := Next(s0, claim);
    var s2 := Next(s1, Transmit);
    assert Legal(s1, [Transmit]) && Run(s1, [Transmit]) == s2;
    assert [claim, Transmit][1..] == [Transmit];
    assert Legal(s0, [claim, Transmit]) && Run(s0, [claim, Transmit]) == s2;
    assert id in multiset(Batch(s1));
    assert s2.sent[id] >= 2;
  }

  /**
    In every reachable state with a claimed, nonempty batch: moving it back to pending is safe if and
    only if it was not transmitted, which is what the NOT_SENT verdict says.
    */
  lemma RetryExactlyWhenNotSent(s: State, events: seq<Event>)
    requires Init(s) && Legal(s, events) && Sends(Run(s, events)) && Batch(Run(s, events)) != []
    ensures NeverTwice(Settle(Run(s, events), Pending)) <==> !Run(s, events).sender.transmitted
  {
    InitInv(s);
    RunKeepsFlight(s, events);
    hide *;
    RetryInState(Run(s, events));
  }

  lemma InitInv(s: State)
    requires Init(s)
    ensures Inv(s) && FlightOk(s)
  {}

  lemma RetryInState(s: State)
    requires Inv(s) && FlightOk(s) && Sends(s) && Batch(s) != []
    ensures NeverTwice(Settle(s, Pending)) <==> !s.sender.transmitted
  {
    hide Inv, FlightOk, NeverTwice;
    if s.sender.transmitted {
      RequeueSendsAgain(s, Batch(s)[0]);
    } else {
      StepKeepsInv(s, NotSent);
      InvNeverTwice(Settle(s, Pending));
    }
  }
}
