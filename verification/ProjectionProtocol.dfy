/** One metric's PostgreSQL rows and Redis projection as a state machine: transactions
    (internal/analytics/mutation.go, batch.go), diff and publish scripts that may be lost, delayed,
    repeated or reordered, rebuilds, whole-key evictions and epoch resets, in any interleaving. */
module ProjectionProtocol {
  import opened Options
  import opened ByteStrings
  import opened MemberCodec
  import opened Ranking
  import opened Projection

  /** One score row a transaction writes (`now` is its new value) or deletes. */
  datatype Target = Target(board: Bytes, entity: Bytes, now: Option<Score>)

  datatype Diff = Diff(prev: nat, changes: seq<Change>)

  datatype Message =
    | DiffMessage(epoch: nat, diff: Diff)
    | PublishMessage(gen: nat, publication: Publication)

  /** `history[v]` is the metric's score table at version v; the last one is durable now.
      `row` says whether `flame_metrics` has the metric's row, `log` holds the diffs of committed
      transactions and `sent` every script ever sent to Redis. */
  datatype State = State(row: bool, history: seq<Scores>, log: set<Diff>, epoch: nat,
                         stages: map<nat, Stage>, sent: set<Message>, cache: Cache)
  {
    function Version(): nat requires |history| > 0 { |history| - 1 }
    function Durable(): Scores requires |history| > 0 { history[|history| - 1] }
  }

  datatype Event =
    | Touch                                           // a WRITE without boards
    | Upsert(targets: seq<Target>)                    // SET, WRITE or a batch with boards
    | Delete(targets: seq<Target>, dryRun: bool)
    | SendDiff(diff: Diff)
    | DeliverDiff(message: Message)
    | BeginRebuild(gen: nat)
    | StageZ(gen: nat, board: Bytes, entity: Bytes)   // ZADD of one row to a staging key
    | StageH(gen: nat, board: Bytes, entity: Bytes)   // HSET of one row to a staging key
    | EvictStage(gen: nat, zs: set<Bytes>, hs: set<Bytes>)
    | SendPublish(gen: nat, boards: seq<Bytes>, drop: seq<Bytes>)
    | DeliverPublish(message: Message, steps: nat)
    | Evict(meta: bool, zs: set<Bytes>, hs: set<Bytes>)
    | ResetEpoch(epoch: nat)

  function ChangesOf(s: Scores, targets: seq<Target>): (changes: seq<Change>)
    ensures |changes| == |targets|
  {
    seq(|targets|, i requires 0 <= i < |targets| =>
      Change(targets[i].board, targets[i].entity, Lookup(s, targets[i].board, targets[i].entity), targets[i].now))
  }

  predicate Distinct(targets: seq<Target>) {
    forall i, j :: 0 <= i < j < |targets| ==>
      targets[i].board != targets[j].board || targets[i].entity != targets[j].entity
  }

  function CountsOf(s: Scores, boards: seq<Bytes>): map<Bytes, nat> { map b | b in boards :: |At(s, b)| }

  ghost predicate Enabled(s: State, ev: Event) {
    && |s.history| > 0
    && match ev
       case Touch => true
       case Upsert(ts) => ts != [] && Distinct(ts) && forall t :: t in ts ==> t.now.Some?
       case Delete(ts, _) => Distinct(ts) && forall t :: t in ts ==> t.now.None?
       case SendDiff(d) => d in s.log
       case DeliverDiff(m) => m in s.sent && m.DiffMessage?
       case BeginRebuild(gen) => gen !in s.stages
       case StageZ(gen, b, e) => gen in s.stages && s.stages[gen].version < |s.history|
         && e in At(s.history[s.stages[gen].version], b)
       case StageH(gen, b, e) => gen in s.stages && s.stages[gen].version < |s.history|
         && e in At(s.history[s.stages[gen].version], b)
       case EvictStage(gen, _, _) => gen in s.stages
       case SendPublish(gen, boards, drop) =>
         && gen in s.stages && s.stages[gen].version < |s.history|
         && (forall i, j :: 0 <= i < j < |boards| ==> boards[i] != boards[j])
         && (forall b :: At(s.history[s.stages[gen].version], b) != map[] <==> b in boards)
       case DeliverPublish(m, _) => m in s.sent && m.PublishMessage? && m.gen in s.stages
       case Evict(_, _, _) => true
       case ResetEpoch(_) => true
  }

  function Commit(s: State, changes: seq<Change>): State
    requires |s.history| > 0
  {
    s.(history := s.history + [PutAll(s.Durable(), changes)], log := s.log + {Diff(s.Version(), changes)})
  }

  ghost function Next(s: State, ev: Event): State
    requires Enabled(s, ev)
  {
    match ev
    case Touch => s.(row := true)
    case Upsert(ts) => Commit(s.(row := true), ChangesOf(s.Durable(), ts))
    case Delete(ts, dryRun) =>
      var changes := ChangesOf(s.Durable(), ts);
      if dryRun || ts == [] then s
      else if s.row then Commit(s, changes)
      // UPDATE flame_metrics matches nothing and the version read as 0 stays 0, yet the diff is sent.
      else s.(log := s.log + {Diff(0, changes)})
    case SendDiff(d) => s.(sent := s.sent + {DiffMessage(s.epoch, d)})
    case DeliverDiff(m) => s.(cache := ApplyDiff(s.cache, m.epoch, m.diff.prev, m.diff.changes))
    case BeginRebuild(gen) => s.(stages := s.stages[gen := Stage(s.Version(), map[], map[])])
    case StageZ(gen, b, e) =>
      var st := s.stages[gen];
      var member := Encode(At(s.history[st.version], b)[e], e);
      s.(stages := s.stages[gen := st.(z := st.z[b := st.Z(b) + {member}])])
    case StageH(gen, b, e) =>
      var st := s.stages[gen];
      var member := Encode(At(s.history[st.version], b)[e], e);
      s.(stages := s.stages[gen := st.(h := st.h[b := st.H(b)[e := member]])])
    case EvictStage(gen, zs, hs) =>
      var st := s.stages[gen];
      s.(stages := s.stages[gen := st.(z := st.z - zs, h := st.h - hs)])
    case SendPublish(gen, boards, drop) =>
      var v := s.stages[gen].version;
      s.(sent := s.sent + {PublishMessage(gen, Publication(s.epoch, v, boards, CountsOf(s.history[v], boards), drop))})
    case DeliverPublish(m, steps) =>
      var r := Publish(Redis(s.cache, s.stages[m.gen]), m.publication, steps);
      s.(cache := r.cache, stages := s.stages[m.gen := r.stage])
    case Evict(meta, zs, hs) =>
      var c := s.cache.(z := s.cache.z - zs, h := s.cache.h - hs);
      s.(cache := if meta then c.(epoch := None, version := None, counts := map[]) else c)
    case ResetEpoch(epoch) => s.(epoch := epoch)
  }

  /** A transaction that publishes a diff finds or creates the metric's `flame_metrics` row. */
  predicate HasRow(s: State, ev: Event) {
    ev.Delete? && !ev.dryRun && ev.targets != [] ==> s.row
  }

  function Init(epoch: nat): State {
    State(false, [map[]], {}, epoch, map[], {}, Cache(None, None, map[], map[], map[]))
  }

  ghost predicate DiffFor(d: Diff, history: seq<Scores>) {
    d.prev + 1 < |history| && Valid(d.changes, history[d.prev])
      && history[d.prev + 1] == PutAll(history[d.prev], d.changes)
  }

  ghost predicate MessageFor(m: Message, history: seq<Scores>, stages: map<nat, Stage>) {
    match m
    case DiffMessage(_, d) => DiffFor(d, history)
    case PublishMessage(gen, p) => PublicationFor(p, history) && gen in stages && stages[gen].version == p.version
  }

  ghost predicate Inv(s: State) {
    && |s.history| > 0
    && (!s.row ==> s.history == [map[]])
    && (forall d :: d in s.log ==> DiffFor(d, s.history))
    && (forall m :: m in s.sent ==> MessageFor(m, s.history, s.stages))
    && (forall gen :: gen in s.stages ==> StageSound(s.stages[gen], s.history))
    && Sound(s.cache, s.history)
  }

  // ---- Every step keeps the invariant ----

  lemma {:induction false} FreshChangesValid(changes: seq<Change>, s: Scores)
    requires forall i :: 0 <= i < |changes| ==> changes[i].was == Lookup(s, changes[i].board, changes[i].entity)
    requires forall i, j :: 0 <= i < j < |changes| ==>
               changes[i].board != changes[j].board || changes[i].entity != changes[j].entity
    ensures Valid(changes, s)
    decreases |changes|
  {
    if changes != [] {
      var s1, rest := Put(s, changes[0]), changes[1..];
      forall i | 0 <= i < |rest| ensures rest[i].was == Lookup(s1, rest[i].board, rest[i].entity) {
        assert rest[i] == changes[i + 1];
      }
      FreshChangesValid(rest, s1);
    }
  }

  lemma ExtendedHistory(s: State, history: seq<Scores>)
    requires Inv(s) && s.history <= history
    ensures (forall d :: d in s.log ==> DiffFor(d, history))
    ensures (forall m :: m in s.sent ==> MessageFor(m, history, s.stages))
    ensures (forall gen :: gen in s.stages ==> StageSound(s.stages[gen], history))
    ensures Sound(s.cache, history)
  {
    hide Valid, PutAll, BoardSound, Members, MemberMap, Submap;
    forall m | m in s.sent ensures MessageFor(m, history, s.stages) {
      assert MessageFor(m, s.history, s.stages);
    }
    forall gen | gen in s.stages ensures StageSound(s.stages[gen], history) {
      assert StageSound(s.stages[gen], s.history);
    }
  }

  lemma CommitKeepsInv(s: State, targets: seq<Target>)
    requires Inv(s) && s.row && Distinct(targets)
    ensures Inv(Commit(s, ChangesOf(s.Durable(), targets)))
  {
    var changes := ChangesOf(s.Durable(), targets);
    var s' := Commit(s, changes);
    FreshChangesValid(changes, s.Durable());
    ExtendedHistory(s, s'.history);
    hide Valid, PutAll, Sound, StageSound, MessageFor;
    assert DiffFor(Diff(s.Version(), changes), s'.history);
  }

  lemma SentKeepsInv(s: State, m: Message)
    requires Inv(s) && MessageFor(m, s.history, s.stages)
    ensures Inv(s.(sent := s.sent + {m}))
  {
    hide MessageFor, DiffFor, StageSound, Sound;
  }

  lemma StageKeepsInv(s: State, gen: nat, st: Stage)
    requires Inv(s) && StageSound(st, s.history) && (gen in s.stages ==> st.version == s.stages[gen].version)
    ensures Inv(s.(stages := s.stages[gen := st]))
  {
    hide PublicationFor, DiffFor, StageSound, Sound;
    var s' := s.(stages := s.stages[gen := st]);
    forall m | m in s'.sent ensures MessageFor(m, s'.history, s'.stages) {
      assert MessageFor(m, s.history, s.stages);
    }
  }

  lemma CacheKeepsInv(s: State, cache: Cache)
    requires Inv(s) && Sound(cache, s.history)
    ensures Inv(s.(cache := cache))
  {
    hide MessageFor, DiffFor, StageSound, Sound;
  }

  lemma StageRowSound(st: Stage, history: seq<Scores>, b: Bytes, e: Bytes)
    requires StageSound(st, history) && e in At(history[st.version], b)
    ensures var member := Encode(At(history[st.version], b)[e], e);
            && StageSound(st.(z := st.z[b := st.Z(b) + {member}]), history)
            && StageSound(st.(h := st.h[b := st.H(b)[e := member]]), history)
  {
    hide Encode;
    var board := At(history[st.version], b);
    var member := Encode(board[e], e);
    assert member in Members(board) && MemberMap(board)[e] == member;
    var zs, hs := st.(z := st.z[b := st.Z(b) + {member}]), st.(h := st.h[b := st.H(b)[e := member]]);
    hide Members, MemberMap;
    forall d
      ensures zs.Z(d) <= Members(At(history[st.version], d)) && Submap(zs.H(d), MemberMap(At(history[st.version], d)))
    {
      assert st.Z(d) <= Members(At(history[st.version], d)) && Submap(st.H(d), MemberMap(At(history[st.version], d)));
    }
    forall d
      ensures hs.Z(d) <= Members(At(history[st.version], d)) && Submap(hs.H(d), MemberMap(At(history[st.version], d)))
    {
      assert st.Z(d) <= Members(At(history[st.version], d)) && Submap(st.H(d), MemberMap(At(history[st.version], d)));
    }
  }

  lemma StageEvictSound(st: Stage, history: seq<Scores>, zs: set<Bytes>, hs: set<Bytes>)
    requires StageSound(st, history)
    ensures StageSound(st.(z := st.z - zs, h := st.h - hs), history)
  {
    hide Members, MemberMap;
    var st' := st.(z := st.z - zs, h := st.h - hs);
    forall d
      ensures st'.Z(d) <= Members(At(history[st.version], d)) && Submap(st'.H(d), MemberMap(At(history[st.version], d)))
    {
      assert st.Z(d) <= Members(At(history[st.version], d)) && Submap(st.H(d), MemberMap(At(history[st.version], d)));
    }
  }

  lemma DeliverPublishKeepsInv(s: State, m: Message, steps: nat)
    requires Inv(s) && Enabled(s, DeliverPublish(m, steps))
    ensures Inv(Next(s, DeliverPublish(m, steps)))
  {
    assert MessageFor(m, s.history, s.stages);
    hide PublicationFor, DiffFor, StageSound, Sound, Exec, PublishCommands, StagingComplete;
    var r := Redis(s.cache, s.stages[m.gen]);
    var x := Publish(r, m.publication, steps);
    PublishPrefixSound(r, m.publication, steps, s.history);
    var cmds := PublishCommands(m.publication);
    ExecStageSound(r, if steps < |cmds| then cmds[..steps] else cmds, s.history);
    StageKeepsInv(s, m.gen, x.stage);
    CacheKeepsInv(s.(stages := s.stages[m.gen := x.stage]), x.cache);
  }

  /** What every step keeps: under HasRow, a cache that names version n is sound for version n, and
      earlier versions of the durable scores never change. */
  lemma StepKeepsInv(s: State, ev: Event)
    requires Inv(s) && Enabled(s, ev) && HasRow(s, ev)
    ensures Inv(Next(s, ev)) && s.history <= Next(s, ev).history
  {
    hide Sound, StageSound, DiffFor, MessageFor, ApplyDiff, Publish, PutAll;
    match ev {
      case Touch =>
      case Upsert(ts) =>
        CommitKeepsInv(s.(row := true), ts);
      case Delete(ts, dryRun) =>
        if !dryRun && ts != [] { CommitKeepsInv(s, ts); }
      case SendDiff(d) =>
        SentKeepsInv(s, DiffMessage(s.epoch, d)) by { assert DiffFor(d, s.history); MessageForDiff(s, d); }
      case DeliverDiff(m) =>
        DeliverDiffSound(s, m);
        CacheKeepsInv(s, ApplyDiff(s.cache, m.epoch, m.diff.prev, m.diff.changes));
      case BeginRebuild(gen) =>
        EmptyStageSound(s.Version(), s.history);
        StageKeepsInv(s, gen, Stage(s.Version(), map[], map[]));
      case StageZ(gen, b, e) =>
        StageRowSound(s.stages[gen], s.history, b, e);
        StageKeepsInv(s, gen, Next(s, ev).stages[gen]);
      case StageH(gen, b, e) =>
        StageRowSound(s.stages[gen], s.history, b, e);
        StageKeepsInv(s, gen, Next(s, ev).stages[gen]);
      case EvictStage(gen, zs, hs) =>
        StageEvictSound(s.stages[gen], s.history, zs, hs);
        StageKeepsInv(s, gen, Next(s, ev).stages[gen]);
      case SendPublish(gen, boards, drop) =>
        SendPublishKeepsInv(s, gen, boards, drop);
      case DeliverPublish(m, steps) =>
        DeliverPublishKeepsInv(s, m, steps);
      case Evict(meta, zs, hs) =>
        DropBoardSound(s.cache, zs, hs, s.history);
        EvictedSound(Next(s, ev).cache, s.history, meta);
        CacheKeepsInv(s, Next(s, ev).cache);
      case ResetEpoch(_) =>
    }
  }

  lemma MessageForDiff(s: State, d: Diff)
    requires DiffFor(d, s.history)
    ensures MessageFor(DiffMessage(s.epoch, d), s.history, s.stages)
  {}

  lemma DeliverDiffSound(s: State, m: Message)
    requires Inv(s) && Enabled(s, DeliverDiff(m))
    ensures Sound(ApplyDiff(s.cache, m.epoch, m.diff.prev, m.diff.changes), s.history)
  {
    hide Sound, StageSound, Valid, PutAll, ApplyDiff;
    assert MessageFor(m, s.history, s.stages);
    ApplyDiffSound(s.cache, m.epoch, m.diff.prev, m.diff.changes, s.history);
  }

  lemma EmptyStageSound(v: nat, history: seq<Scores>)
    requires v < |history|
    ensures StageSound(Stage(v, map[], map[]), history)
  {
    hide Members, MemberMap;
  }

  lemma EvictedSound(c: Cache, history: seq<Scores>, meta: bool)
    requires if meta then c.version.None? else Sound(c, history)
    ensures Sound(c, history)
  {}

  lemma SendPublishKeepsInv(s: State, gen: nat, boards: seq<Bytes>, drop: seq<Bytes>)
    requires Inv(s) && Enabled(s, SendPublish(gen, boards, drop))
    ensures Inv(Next(s, SendPublish(gen, boards, drop)))
  {
    hide Sound, StageSound, DiffFor;
    var v := s.stages[gen].version;
    var p := Publication(s.epoch, v, boards, CountsOf(s.history[v], boards), drop);
    assert PublicationFor(p, s.history);
    SentKeepsInv(s, PublishMessage(gen, p));
  }

  // ---- Whole runs ----

  /** A run of enabled steps in which every publishing transaction has its row. */
  ghost predicate Legal(s: State, evs: seq<Event>)
    decreases |evs|
  {
    evs == [] || (Enabled(s, evs[0]) && HasRow(s, evs[0]) && Legal(Next(s, evs[0]), evs[1..]))
  }

  ghost function Run(s: State, evs: seq<Event>): State
    requires Legal(s, evs)
    decreases |evs|
  {
    if evs == [] then s else Run(Next(s, evs[0]), evs[1..])
  }

  lemma {:induction false} RunKeepsInv(s: State, evs: seq<Event>)
    requires Inv(s) && Legal(s, evs)
    ensures Inv(Run(s, evs)) && s.history <= Run(s, evs).history
    decreases |evs|
  {
    hide Inv, Enabled, HasRow, Next;
    if evs != [] {
      StepKeepsInv(s, evs[0]);
      RunKeepsInv(Next(s, evs[0]), evs[1..]);
    }
  }

  lemma InitInv(epoch: nat)
    ensures Inv(Init(epoch))
  {}

  /** In every reachable state, a board of recorded size holds exactly PostgreSQL's scores at the
      version in the metadata. */
  lemma ReachableCacheIsExact(epoch: nat, evs: seq<Event>, b: Bytes)
    requires Legal(Init(epoch), evs)
    ensures var s := Run(Init(epoch), evs);
            s.cache.version.Some? && s.cache.FullSize(b) ==>
              s.cache.version.value < |s.history| && Exact(s.cache, b, s.history[s.cache.version.value])
  {
    hide Enabled, HasRow, Next, Members, MemberMap, Legal, Run;
    InitInv(epoch);
    RunKeepsInv(Init(epoch), evs);
    var s := Run(Init(epoch), evs);
    if s.cache.version.Some? { assert BoardSound(s.cache, b, s.history[s.cache.version.value]); }
  }

  /** A warm read that selected the version in `start` and whose script ran after any further steps
      answers with the scores that were durable at that SELECT. */
  lemma WarmReadIsExact(start: State, evs: seq<Event>, epoch: nat, b: Bytes, rows: seq<Row>, q: Query, max: nat)
    requires Inv(start) && Legal(start, evs) && Listing(At(start.Durable(), b), rows)
    requires ReadScript(Run(start, evs).cache, epoch, start.Version(), b, q, max).Some?
    ensures CachedAnswer(ReadScript(Run(start, evs).cache, epoch, start.Version(), b, q, max).value, q, max)
            == SqlAnswer(At(start.Durable(), b), rows, q, max)
  {
    hide Legal, Run, ReadScript, CachedAnswer, SqlAnswer, Listing;
    RunKeepsInv(start, evs);
    var end := Run(start, evs);
    assert end.history[start.Version()] == start.Durable();
    SoundReadIsSqlAnswer(end.cache, end.history, epoch, start.Version(), b, rows, q, max);
  }

  // ---- Without the row: exactly when a transaction is safe ----

  /** Every reader that selects the version now and reads Redis now gets SQL's answer. */
  ghost predicate ReadsRight(s: State)
    requires |s.history| > 0
  {
    forall epoch, b, rows, q, max ::
      Listing(At(s.Durable(), b), rows) && ReadScript(s.cache, epoch, s.Version(), b, q, max).Some? ==>
        CachedAnswer(ReadScript(s.cache, epoch, s.Version(), b, q, max).value, q, max)
        == SqlAnswer(At(s.Durable(), b), rows, q, max)
  }

  ghost predicate SafeForever(s: State) {
    forall evs :: Legal(s, evs) ==> |Run(s, evs).history| > 0 && ReadsRight(Run(s, evs))
  }

  lemma InvIsSafeForever(s: State)
    requires Inv(s)
    ensures SafeForever(s)
  {
    forall evs | Legal(s, evs) ensures |Run(s, evs).history| > 0 && ReadsRight(Run(s, evs)) {
      RunKeepsInv(s, evs);
      var end := Run(s, evs);
      forall epoch, b, rows, q, max | Listing(At(end.Durable(), b), rows)
                                      && ReadScript(end.cache, epoch, end.Version(), b, q, max).Some?
        ensures CachedAnswer(ReadScript(end.cache, epoch, end.Version(), b, q, max).value, q, max)
                == SqlAnswer(At(end.Durable(), b), rows, q, max)
      {
        WarmReadIsExact(end, [], epoch, b, rows, q, max);
      }
    }
  }

  ghost predicate CanMislead(s: State) {
    exists evs :: Legal(s, evs) && |Run(s, evs).history| > 0 && !ReadsRight(Run(s, evs))
  }

  lemma OneStepEarlier(s: State, ev: Event)
    requires Enabled(s, ev) && HasRow(s, ev) && CanMislead(Next(s, ev))
    ensures CanMislead(s)
  {
    hide Enabled, HasRow, Next, ReadsRight;
    var evs :| Legal(Next(s, ev), evs) && |Run(Next(s, ev), evs).history| > 0 && !ReadsRight(Run(Next(s, ev), evs));
    var longer := [ev] + evs;
    assert longer[1..] == evs && longer[0] == ev;
    assert Legal(s, longer) && Run(s, longer) == Run(Next(s, ev), evs);
  }

  /** Redis holds version 1 for an empty board; the first durable score also gets version 1. */
  lemma ForgedVersionMisleads(s: State, epoch: nat, b: Bytes)
    requires s.history == [map[]] && s.cache.epoch == Some(epoch) && s.cache.version == Some(1)
    requires s.cache.Count(b) == 0 && s.cache.Z(b) == {} && s.cache.H(b) == map[]
    ensures CanMislead(s)
  {
    hide Listing, Before, Encode;
    var ts := [Target(b, [], Some(ZERO))];
    var end := Next(s, Upsert(ts));
    var changes := ChangesOf(s.Durable(), ts);
    assert changes == [Change(b, [], None, Some(ZERO))];
    assert PutAll(map[], changes) == map[b := map[[] := ZERO]];
    var board, rows := At(end.Durable(), b), [Row([], ZERO)];
    OneRowListing(rows[0], board);
    assert ReadScript(end.cache, epoch, end.Version(), b, LeaderboardCount, 0).Some?;
    assert |board| == 1;
    assert !ReadsRight(end);
    assert Legal(end, []) && Run(end, []) == end;
    OneStepEarlier(s, Upsert(ts));
  }

  lemma OneRowListing(row: Row, b: Board)
    requires b == map[row.entity := row.value]
    ensures Listing(b, [row])
  {}

  lemma {:induction false} AbsentRowsStayEmpty(c: Cache, changes: seq<Change>)
    requires forall b :: c.Z(b) == {} && c.H(b) == map[]
    requires forall ch :: ch in changes ==> ch.was.None? && ch.now.None?
    ensures forall b :: ApplyChanges(c, changes).Z(b) == {} && ApplyChanges(c, changes).H(b) == map[]
    ensures ApplyChanges(c, changes).epoch == c.epoch && ApplyChanges(c, changes).counts == c.counts
    decreases |changes|
  {
    if changes != [] {
      assert changes[0] in changes;
      var c1 := ApplyChange(c, changes[0]);
      forall b ensures c1.Z(b) == {} && c1.H(b) == map[] {
        assert c.Z(b) == {} && c.H(b) == map[];
        assert c.H(b) - {changes[0].entity} == c.H(b);
      }
      AbsentRowsStayEmpty(c1, changes[1..]);
    }
  }

  /** Once an empty version 0 is published, the diff of the rowless DELETE forges version 1. */
  lemma RowlessDiffForges(s: State, diff: Diff)
    requires s.history == [map[]] && diff in s.log && diff.prev == 0 && diff.changes != []
    requires forall ch :: ch in diff.changes ==> ch.was.None? && ch.now.None?
    requires s.cache == Cache(Some(s.epoch), Some(0), map[], map[], map[])
    ensures CanMislead(s)
  {
    hide CanMislead, ApplyChanges;
    var sent := Next(s, SendDiff(diff));
    var message := DiffMessage(s.epoch, diff);
    var end := Next(sent, DeliverDiff(message));
    AbsentRowsStayEmpty(s.cache, diff.changes);
    assert end.cache.version == Some(1) && end.cache.epoch == Some(s.epoch);
    ForgedVersionMisleads(end, s.epoch, diff.changes[0].board);
    OneStepEarlier(sent, DeliverDiff(message));
    OneStepEarlier(s, SendDiff(diff));
  }

  lemma FreshGeneration(gens: set<nat>) returns (gen: nat)
    ensures gen !in gens && forall g :: g in gens ==> g < gen
  {
    if gens == {} {
      gen := 0;
    } else {
      var g :| g in gens;
      var rest := FreshGeneration(gens - {g});
      gen := if rest > g then rest else g + 1;
      assert forall x :: x in gens ==> x == g || x in gens - {g};
    }
  }

  /** A rank read of the unknown metric can always publish an empty version 0. */
  lemma RowlessDiffMisleads(s: State, diff: Diff)
    requires s.history == [map[]] && diff in s.log && diff.prev == 0 && diff.changes != []
    requires forall ch :: ch in diff.changes ==> ch.was.None? && ch.now.None?
    ensures CanMislead(s)
  {
    hide CanMislead;
    var e1 := Evict(true, s.cache.z.Keys, s.cache.h.Keys);
    var s1 := Next(s, e1);
    assert s1.cache == Cache(None, None, map[], map[], map[]);
    var gen := FreshGeneration(s1.stages.Keys);
    var s2 := Next(s1, BeginRebuild(gen));
    var e3 := SendPublish(gen, [], []);
    var s3 := Next(s2, e3);
    var p := Publication(s.epoch, 0, [], map[], []);
    assert CountsOf(map[], []) == map[];
    assert PublishMessage(gen, p) in s3.sent;
    var e4 := DeliverPublish(PublishMessage(gen, p), 2);
    var s4 := Next(s3, e4);
    PublishNothing(s3.cache, s3.stages[gen], p);
    RowlessDiffForges(s4, diff);
    OneStepEarlier(s3, e4);
    OneStepEarlier(s2, e3);
    OneStepEarlier(s1, BeginRebuild(gen));
    OneStepEarlier(s, e1);
  }

  lemma PublishNothing(c: Cache, st: Stage, p: Publication)
    requires c == Cache(None, None, map[], map[], map[]) && p.boards == [] && p.drop == []
    ensures Publish(Redis(c, st), p, 2).cache == Cache(Some(p.epoch), Some(p.version), map[], map[], map[])
  {
    var cmds := PublishCommands(p);
    assert cmds == [DropMeta, SetValid(p.epoch, p.version)];
    assert cmds[1..] == [SetValid(p.epoch, p.version)];
    var bare := Do(Redis(c, st), DropMeta);
    assert Exec(bare, cmds[1..]) == Do(bare, SetValid(p.epoch, p.version));
    assert Exec(Redis(c, st), cmds) == Do(Do(Redis(c, st), DropMeta), SetValid(p.epoch, p.version));
  }

  /** From any state with a sound cache, a transaction leaves every later read right exactly when it
      has the metric's row: a DELETE that names boards of a metric without one breaks a later read. */
  lemma SafeExactlyWithRow(s: State, ev: Event)
    requires Inv(s) && Enabled(s, ev)
    ensures SafeForever(Next(s, ev)) <==> HasRow(s, ev)
  {
    if HasRow(s, ev) {
      StepKeepsInv(s, ev);
      InvIsSafeForever(Next(s, ev));
    } else {
      var s' := Next(s, ev);
      var diff := Diff(0, ChangesOf(s.Durable(), ev.targets));
      forall ch | ch in diff.changes ensures ch.was.None? && ch.now.None? {
        var i :| 0 <= i < |diff.changes| && diff.changes[i] == ch;
        assert ev.targets[i] in ev.targets;
      }
      hide Inv;
      RowlessDiffMisleads(s', diff);
      hide Legal, Run, ReadsRight;
    }
  }
}
