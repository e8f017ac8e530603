/** What WriteJournal does with the files it finds when it starts. */
module JournalRecovery {
  import opened Options
  import opened Journal

  /** The steps for one file of the directory; `bad` says that even the tolerant read fails. */
  function StepsFor(f: File, c: Content, bad: bool): seq<Event> {
    match f.stage
    case Inflight => [RecoverInflight(f.order)]
    case Open =>
      if bad then [RecoverUnreadable(f.order)]
      else if c.records == [] then [RecoverOpen(f.order)]
      else [RecoverOpen(f.order), WriteRebuild(f.order, |c.records|), MoveRebuild(f.order)]
    case Done => [DeleteDone(f.order)]
    case _ => []
  }

  /** The directory after those steps. */
  function After(d: Disk, f: File, bad: bool): Disk
    requires f in d
  {
    match f.stage
    case Inflight => Move(d, f.order, Inflight, Uncertain)
    case Open =>
      if bad then Move(d, f.order, Open, Damaged)
      else
        var aside := Move(d, f.order, Open, Recovered);
        if d[f].records == [] then aside else aside[File(f.order, Pending) := Content(d[f].records, false)]
    case Done => d - {f}
    case _ => d
  }

  ghost predicate Ready(s: State) { Inv(s) && s.phase.Recovering? && s.rebuilding.None? }

  lemma SetAside(s: State, f: File)
    requires s.phase.Recovering? && s.rebuilding.None? && f in s.disk && f.stage.Open? && s.disk[f].records != []
    ensures Enabled(s, RecoverOpen(f.order))
    ensures Next(s, RecoverOpen(f.order))
            == s.(disk := Move(s.disk, f.order, Open, Recovered), rebuilding := Some(f.order))
  {}

  lemma WriteBack(s: State, o: nat, records: seq<Id>)
    requires s.phase.Recovering? && s.rebuilding == Some(o) && Has(s, o, Recovered)
             && s.disk[File(o, Recovered)].records == records
    ensures Enabled(s, WriteRebuild(o, |records|))
    ensures Next(s, WriteRebuild(o, |records|)) == s.(disk := s.disk[File(o, Rebuild) := Content(records, false)])
  {
    assert records[..|records|] == records;
  }

  lemma MakePending(s: State, o: nat)
    requires s.phase.Recovering? && s.rebuilding == Some(o) && Has(s, o, Recovered) && Has(s, o, Rebuild)
    requires s.disk[File(o, Rebuild)] == Content(s.disk[File(o, Recovered)].records, false)
    ensures Enabled(s, MoveRebuild(o))
    ensures Next(s, MoveRebuild(o)) == s.(disk := Move(s.disk, o, Rebuild, Pending), rebuilding := None)
  {}

  lemma RebuiltDisk(d: Disk, f: File)
    requires DiskOk(d) && f in d && f.stage.Open? && d[f].records != []
    ensures var copy := Move(d, f.order, Open, Recovered)[File(f.order, Rebuild) := Content(d[f].records, false)];
            Move(copy, f.order, Rebuild, Pending) == After(d, f, false)
  {
    hide OneOrder, Distinct;
    assert File(f.order, Rebuild) !in d;
  }

  lemma RebuildRun(s: State, f: File)
    requires Ready(s) && f in s.disk && f.stage.Open? && s.disk[f].records != []
    ensures var steps := StepsFor(f, s.disk[f], false);
            Legal(s, steps) && Run(s, steps) == s.(disk := After(s.disk, f, false))
  {
    hide Inv, Enabled, Next, Legal, Run, After;
    var o, records := f.order, s.disk[f].records;
    SetAside(s, f);
    var s1 := Next(s, RecoverOpen(o));
    WriteBack(s1, o, records);
    var s2 := Next(s1, WriteRebuild(o, |records|));
    MakePending(s2, o);
    assert DiskOk(s.disk) by { ReadyDisk(s); }
    RebuiltDisk(s.disk, f);
    var a, b, c := RecoverOpen(o), WriteRebuild(o, |records|), MoveRebuild(o);
    OneStep(s, a);
    OneStep(s1, b);
    OneStep(s2, c);
    RunAppend(s, [a], [b]);
    RunAppend(s, [a] + [b], [c]);
    assert [a] + [b] + [c] == StepsFor(f, s.disk[f], false);
  }

  lemma ReadyDisk(s: State)
    requires Inv(s)
    ensures DiskOk(s.disk)
  {}

  lemma StepsRun(s: State, f: File, bad: bool)
    requires Ready(s) && f in s.disk
    ensures var steps := StepsFor(f, s.disk[f], bad);
            Legal(s, steps) && Run(s, steps) == s.(disk := After(s.disk, f, bad))
  {
    if f.stage.Open? && !bad && s.disk[f].records != [] {
      RebuildRun(s, f);
    } else {
      hide Inv;
      var steps := StepsFor(f, s.disk[f], bad);
      if steps != [] { assert steps[1..] == []; }
    }
  }

  /** One step per order: a rename of one file never meets another file of the listing. */
  lemma OthersStay(d: Disk, f: File, bad: bool, g: File)
    requires DiskOk(d) && f in d && g in d && g != f
    ensures g in After(d, f, bad) && After(d, f, bad)[g] == d[g]
  {
    hide OneOrder, Distinct;
  }

  /** What becomes of one file. */
  ghost predicate Treated(d: Disk, d': Disk, f: File, bad: bool)
    requires f in d
  {
    match f.stage
    case Inflight => f !in d' && File(f.order, Uncertain) in d' && d'[File(f.order, Uncertain)] == d[f]
    case Open =>
      if bad then f !in d' && File(f.order, Damaged) in d' && d'[File(f.order, Damaged)] == d[f]
      else
        && f !in d' && File(f.order, Recovered) in d' && d'[File(f.order, Recovered)] == d[f]
        && (d[f].records != [] ==>
              File(f.order, Pending) in d' && d'[File(f.order, Pending)] == Content(d[f].records, false))
    case Done => f !in d'
    case _ => f in d' && d'[f] == d[f]
  }

  lemma TreatsIt(d: Disk, f: File, bad: bool)
    requires DiskOk(d) && f in d
    ensures Treated(d, After(d, f, bad), f, bad)
  {
    hide OneOrder, Distinct;
  }

  /** A file that is final for recovery: visiting another file of the listing does not touch it. */
  lemma StaysTreated(d: Disk, now: Disk, f: File, bad: bool, g: File, gBad: bool)
    requires DiskOk(now) && f in d && Treated(d, now, f, bad) && g in now && g in d && g != f && DiskOk(d)
    requires now[g] == d[g]
    ensures Treated(d, After(now, g, gBad), f, bad)
  {
    assert g.order == f.order ==> f.stage.Recovered? || g.stage.Recovered?;
    forall x | x in now && x != g ensures x in After(now, g, gBad) && After(now, g, gBad)[x] == now[x] {
      OthersStay(now, g, gBad, x);
    }
    if f !in now && f in After(now, g, gBad) { OnlyOwnOrder(now, g, gBad, f); }
    hide After, DiskOk;
  }

  lemma OnlyOwnOrder(d: Disk, g: File, bad: bool, x: File)
    requires g in d && x !in d && x in After(d, g, bad)
    ensures x.order == g.order && !g.stage.Recovered?
  {}

  /**
    The recovery loop over the directory: batches that may have been sent become uncertain and are never
    pending again, and the readable prefix of every open file becomes one pending file.
    */
  method Recover(disk: Disk, listing: seq<File>, unreadable: set<File>, ghost s: State)
    returns (disk': Disk, ghost trace: seq<Event>)
    requires Ready(s) && s.disk == disk
    requires (forall f :: f in listing ==> f in disk) && forall i, j :: 0 <= i < j < |listing| ==>
             listing[i] != listing[j]
    ensures Legal(s, trace) && Run(s, trace) == s.(disk := disk') && Ready(s.(disk := disk'))
    ensures forall f :: f in listing ==> Treated(disk, disk', f, f in unreadable)
  {
    hide Ready, Treated, After, Legal, Run, StepsFor, DiskOk;
    disk', trace := disk, [];
    NoStep(s);
    for i := 0 to |listing|
      invariant Legal(s, trace) && Run(s, trace) == s.(disk := disk') && Ready(s.(disk := disk'))
      invariant forall j :: 0 <= j < i ==> Treated(disk, disk', listing[j], listing[j] in unreadable)
      invariant forall j :: i <= j < |listing| ==> listing[j] in disk' && disk'[listing[j]] == disk[listing[j]]
    {
      ghost var now := s.(disk := disk');
      ghost var was := disk';
      var f := listing[i];
      ghost var bad := f in unreadable;
      ReadyIsOk(now);
      ReadyIsOk(s);
      StepsRun(now, f, bad);
      RunKeepsReady(now, StepsFor(f, disk'[f], bad), After(disk', f, bad));
      RunAppend(s, trace, StepsFor(f, disk'[f], bad));
      trace := trace + StepsFor(f, disk'[f], bad);
      disk' := After(disk', f, f in unreadable);
      forall j | 0 <= j < i ensures Treated(disk, disk', listing[j], listing[j] in unreadable) {
        StaysTreated(disk, was, listing[j], listing[j] in unreadable, f, bad);
      }
      forall j | i < j < |listing| ensures listing[j] in disk' && disk'[listing[j]] == disk[listing[j]] {
        OthersStay(was, f, bad, listing[j]);
      }
      TreatsSame(disk, was, f, bad);
    }
  }

  lemma ReadyIsOk(s: State)
    requires Ready(s)
    ensures DiskOk(s.disk)
  {}

  lemma RunKeepsReady(s: State, events: seq<Event>, d: Disk)
    requires Ready(s) && Legal(s, events) && Run(s, events) == s.(disk := d)
    ensures Ready(s.(disk := d))
  {
    RunKeepsInv(s, events);
  }

  lemma TreatsSame(d: Disk, now: Disk, f: File, bad: bool)
    requires DiskOk(now) && f in now && f in d && now[f] == d[f]
    ensures Treated(d, After(now, f, bad), f, bad)
  {
    TreatsIt(now, f, bad);
  }
}
