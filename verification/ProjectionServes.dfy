/** The cache is of use: scripts that find it complete leave it complete, and a rebuild makes it complete. */
module ProjectionServes {
  import opened Options
  import opened ByteStrings
  import opened MemberCodec
  import opened Ranking
  import opened Projection
  import opened ProjectionProtocol

  /** The keys and the count of a board are those of its durable rows. */
  ghost predicate BoardHeld(c: Cache, b: Bytes, s: Scores) {
    && (if b in c.z then c.z[b] else {}) == Members(At(s, b))
    && (if b in c.h then c.h[b] else map[]) == MemberMap(At(s, b))
    && (if b in c.counts then c.counts[b] else 0) == |At(s, b)|
  }

  ghost predicate Current(c: Cache, epoch: nat, version: nat) { c.epoch == Some(epoch) && c.version == Some(version) }

  /** A read of a board that is held is answered, whatever is asked. */
  lemma HeldIsServed(c: Cache, epoch: nat, version: nat, b: Bytes, s: Scores, q: Query, max: nat)
    requires Current(c, epoch, version) && BoardHeld(c, b, s)
    ensures ReadScript(c, epoch, version, b, q, max).Some?
  {
    hide Members, MemberMap, ReadMembers, Listing, CachedAnswer, SqlAnswer;
    MembersSize(At(s, b));
    var rows := ListingExists(At(s, b));
    CompleteBoardAnswersLikeSql(At(s, b), rows, q, max);
  }

  // ---- A diff ----

  /** A diff for the version of a complete cache leaves it complete for the next version. */
  lemma DiffServes(c: Cache, epoch: nat, prev: nat, changes: seq<Change>, s: Scores)
    requires Current(c, epoch, prev) && (forall b :: BoardHeld(c, b, s)) && Valid(changes, s)
    ensures var c' := ApplyDiff(c, epoch, prev, changes);
            Current(c', epoch, prev + 1) && forall b :: BoardHeld(c', b, PutAll(s, changes))
  {
    hide BoardHeld, Exact, ApplyChanges, PutAll, Valid, Recount, ApplyDiff;
    var boards, s' := Touched(changes), PutAll(s, changes);
    forall b ensures Exact(c, b, s) && c.FullSize(b) { HeldFacts(c, b, s); }
    DiffApplies(c, epoch, prev, changes);
    ApplyChangesExact(c, changes, s, boards);
    var applied := ApplyChanges(c, changes);
    RecountStays(applied, boards);
    forall b ensures BoardHeld(ApplyDiff(c, epoch, prev, changes), b, s') {
      RecountHolds(c, applied, b, s, s', boards, prev + 1);
    }
  }

  lemma HeldFacts(c: Cache, b: Bytes, s: Scores)
    requires BoardHeld(c, b, s)
    ensures Exact(c, b, s) && c.FullSize(b)
  {
    hide Members, MemberMap;
    MembersSize(At(s, b));
  }

  lemma DiffApplies(c: Cache, epoch: nat, prev: nat, changes: seq<Change>)
    requires Current(c, epoch, prev) && forall ch :: ch in changes ==> c.FullSize(ch.board)
    ensures ApplyDiff(c, epoch, prev, changes)
            == Recount(ApplyChanges(c, changes), Touched(changes)).(version := Some(prev + 1))
  {}

  lemma RecountStays(c: Cache, boards: set<Bytes>)
    ensures Recount(c, boards).epoch == c.epoch
  {}

  lemma RecountHolds(c: Cache, applied: Cache, b: Bytes, s: Scores, s': Scores, boards: set<Bytes>,
                     version: nat)
    requires BoardHeld(c, b, s) && applied.counts == c.counts
    requires if b in boards then Exact(applied, b, s')
             else applied.Z(b) == c.Z(b) && applied.H(b) == c.H(b) && At(s', b) == At(s, b)
    ensures BoardHeld(Recount(applied, boards).(version := Some(version)), b, s')
  {
    hide Members, MemberMap;
    MembersSize(At(s', b));
  }

  // ---- A rebuild ----

  /** Every row of the version is staged. */
  ghost predicate Staged(st: Stage, s: Scores) {
    forall b :: At(s, b) != map[] ==>
      b in st.z && b in st.h && st.z[b] == Members(At(s, b)) && st.h[b] == MemberMap(At(s, b))
  }

  /** Publishing it all makes every board with rows complete, and every board without that has no keys left. */
  lemma PublishServes(r: Redis, p: Publication, history: seq<Scores>, steps: nat, b: Bytes)
    requires PublicationFor(p, history) && Staged(r.stage, history[p.version]) && steps >= |PublishCommands(p)|
    requires At(history[p.version], b) != map[] || b in p.drop || (b !in r.cache.z && b !in r.cache.h)
    ensures var c := Publish(r, p, steps).cache;
            Current(c, p.epoch, p.version) && BoardHeld(c, b, history[p.version])
  {
    hide Exec, Members, MemberMap, Moves, Drops, StagingComplete;
    var s := history[p.version];
    StagedIsComplete(r, p, history);
    PublishDoes(r, p, steps);
    DropsRemove(r, p.drop);
    var bare := Do(Exec(r, Drops(p.drop)), DropMeta);
    MovesInstall(bare, p.boards);
    MembersSize(At(s, b));
    EmptyBoard();
    if b in p.boards { assert At(s, b) != map[]; } else { assert At(s, b) == map[]; }
  }

  lemma StagedIsComplete(r: Redis, p: Publication, history: seq<Scores>)
    requires PublicationFor(p, history) && Staged(r.stage, history[p.version])
    ensures StagingComplete(r.stage, p)
  {
    hide Members, MemberMap;
    forall b | b in p.boards ensures |r.stage.Z(b)| == p.counts[b] && |r.stage.H(b)| == p.counts[b] {
      assert At(history[p.version], b) != map[];
      MembersSize(At(history[p.version], b));
    }
  }

  lemma PublishDoes(r: Redis, p: Publication, steps: nat)
    requires StagingComplete(r.stage, p) && steps >= |PublishCommands(p)|
    ensures Publish(r, p, steps)
            == Do(Exec(Do(Exec(r, Drops(p.drop)), DropMeta), Moves(p.boards)), SetValid(p.epoch, p.version))
    ensures Current(Publish(r, p, steps).cache, p.epoch, p.version)
  {
    hide Exec, Moves, Drops, StagingComplete;
    PublishInPhases(r, p);
  }

  lemma {:induction false} DropsRemove(r: Redis, boards: seq<Bytes>)
    ensures var x := Exec(r, Drops(boards));
            && x.stage == r.stage
            && x.cache.z == r.cache.z - (set b | b in boards) && x.cache.h == r.cache.h - (set b | b in boards)
    decreases |boards|
  {
    if boards == [] {
      assert (set b | b in boards) == {};
    } else {
      assert Drops(boards)[1..] == Drops(boards[1..]);
      DropsRemove(Do(r, Drops(boards)[0]), boards[1..]);
      assert boards == [boards[0]] + boards[1..];
      assert (set b | b in boards) == {boards[0]} + set b | b in boards[1..];
    }
  }

  // ---- From every reachable state ----

  lemma {:induction false} Append(s: State, a: seq<Event>, b: seq<Event>)
    requires Legal(s, a) && Legal(Run(s, a), b)
    ensures Legal(s, a + b) && Run(s, a + b) == Run(Run(s, a), b)
    decreases |a|
  {
    hide Enabled, HasRow, Next;
    if a == [] {
      assert a + b == b;
    } else {
      assert (a + b)[1..] == a[1..] + b;
      Append(Next(s, a[0]), a[1..], b);
    }
  }

  lemma One(s: State, ev: Event)
    requires Enabled(s, ev) && HasRow(s, ev)
    ensures Legal(s, [ev]) && Run(s, [ev]) == Next(s, ev)
  {
    hide Enabled, HasRow, Next;
    assert [ev][1..] == [];
    assert Legal(Next(s, ev), []);
  }

  /** A step of a rebuild and of what it sends. */
  predicate Rebuilds(ev: Event) {
    ev.BeginRebuild? || ev.StageZ? || ev.StageH? || ev.SendPublish? || ev.DeliverPublish?
  }

  /** A rebuild that has staged these rows, and nothing else has happened. */
  ghost predicate HasStaged(s: State, t: State, gen: nat, rows: set<(Bytes, Bytes)>) {
    && gen in s.stages && gen in t.stages && t == s.(stages := s.stages[gen := t.stages[gen]])
    && t.stages[gen].version == s.stages[gen].version < |s.history|
    && forall b, e :: (b, e) in rows && e in At(s.history[s.stages[gen].version], b) ==>
         && b in t.stages[gen].z && b in t.stages[gen].h && e in t.stages[gen].h[b]
         && Encode(At(s.history[s.stages[gen].version], b)[e], e) in t.stages[gen].z[b]
  }

  lemma StageOne(s: State, t: State, gen: nat, rows: set<(Bytes, Bytes)>, b: Bytes, e: Bytes)
    requires Inv(s) && HasStaged(s, t, gen, rows) && e in At(s.history[s.stages[gen].version], b)
    ensures Enabled(t, StageZ(gen, b, e)) && Enabled(Next(t, StageZ(gen, b, e)), StageH(gen, b, e))
    ensures HasStaged(s, Next(Next(t, StageZ(gen, b, e)), StageH(gen, b, e)), gen, rows + {(b, e)})
  {
    hide Inv, Encode;
    assert |s.history| > 0;
  }

  /** Staging all rows, one after the other. */
  lemma {:induction false} StageRows(s: State, gen: nat, rows: set<(Bytes, Bytes)>) returns (evs: seq<Event>)
    requires Inv(s) && gen in s.stages && s.stages[gen].version < |s.history|
    requires forall b, e :: (b, e) in rows ==> e in At(s.history[s.stages[gen].version], b)
    ensures Legal(s, evs) && (forall ev :: ev in evs ==> Rebuilds(ev)) && HasStaged(s, Run(s, evs), gen, rows)
    decreases rows
  {
    hide Inv, Enabled, Next, HasStaged;
    if rows == {} {
      evs := [];
      NothingStaged(s, gen);
    } else {
      var row :| row in rows;
      var (b, e) := row;
      var before := StageRows(s, gen, rows - {row});
      var t := Run(s, before);
      StageOne(s, t, gen, rows - {row}, b, e);
      var z, h := StageZ(gen, b, e), StageH(gen, b, e);
      One(t, z);
      One(Next(t, z), h);
      Append(t, [z], [h]);
      Append(s, before, [z] + [h]);
      evs := before + ([z] + [h]);
      assert rows - {row} + {(b, e)} == rows;
    }
  }

  lemma NothingStaged(s: State, gen: nat)
    requires gen in s.stages && s.stages[gen].version < |s.history|
    ensures HasStaged(s, s, gen, {})
  {
    assert s.stages[gen := s.stages[gen]] == s.stages;
  }

  ghost function RowsOf(s: Scores): set<(Bytes, Bytes)> { set b, e | b in s && e in s[b] :: (b, e) }

  ghost function BoardsOf(s: Scores): set<Bytes> { set b | b in s && s[b] != map[] }

  /** What was staged is sound, so once every row is there nothing else is. */
  lemma AllStaged(s: State, t: State, gen: nat)
    requires gen in s.stages && s.stages[gen].version < |s.history|
    requires HasStaged(s, t, gen, RowsOf(s.history[s.stages[gen].version])) && StageSound(t.stages[gen], s.history)
    ensures Staged(t.stages[gen], s.history[s.stages[gen].version])
  {
    hide Encode;
    var st, d := t.stages[gen], s.history[s.stages[gen].version];
    forall b | At(d, b) != map[]
      ensures b in st.z && b in st.h && st.z[b] == Members(At(d, b)) && st.h[b] == MemberMap(At(d, b))
    {
      assert st.Z(b) <= Members(At(d, b)) && Submap(st.H(b), MemberMap(At(d, b)));
      forall e | e in At(d, b)
        ensures b in st.z && b in st.h && e in st.h[b] && Encode(At(d, b)[e], e) in st.z[b]
      {
        assert (b, e) in RowsOf(d);
      }
      var e :| e in At(d, b);
    }
  }

  /** Names in some order, each once. */
  lemma Listed(names: set<Bytes>) returns (list: seq<Bytes>)
    ensures (forall i, j :: 0 <= i < j < |list| ==> list[i] != list[j]) && forall b :: b in list <==> b in names
  {
    list := Sort(names);
    SortCorrect(names);
    forall i, j | 0 <= i < j < |list| ensures list[i] != list[j] { LessTotal(list[i], list[j]); }
  }

  /** Sending and running the publish script of a complete staging, with nothing in between. */
  lemma PublishRuns(t: State, gen: nat) returns (evs: seq<Event>)
    requires Inv(t) && gen in t.stages && t.stages[gen].version == t.Version() && Staged(t.stages[gen], t.Durable())
    ensures Legal(t, evs) && (forall ev :: ev in evs ==> Rebuilds(ev))
    ensures var end := Run(t, evs);
            && end.history == t.history && end.epoch == t.epoch && Current(end.cache, t.epoch, t.Version())
            && forall b ::
                 At(t.Durable(), b) != map[] || b in t.cache.counts || (b !in t.cache.z && b !in t.cache.h) ==>
                   BoardHeld(end.cache, b, t.Durable())
  {
    hide Staged, Publish, StagingComplete, BoardHeld, Run, Legal, Current, Inv, Enabled, Next, PublicationFor;
    var send, p := SendStep(t, gen);
    var u, n := Next(t, send), |PublishCommands(p)|;
    DeliverStep(u, gen, p, n);
    var deliver := DeliverPublish(PublishMessage(gen, p), n);
    One(t, send);
    One(u, deliver);
    Append(t, [send], [deliver]);
    evs := [send] + [deliver];
    var r := Redis(t.cache, t.stages[gen]);
    StagedIsComplete(r, p, t.history);
    PublishDoes(r, p, n);
    forall b | At(t.Durable(), b) != map[] || b in t.cache.counts || (b !in t.cache.z && b !in t.cache.h)
      ensures BoardHeld(Next(u, deliver).cache, b, t.Durable())
    {
      PublishServes(r, p, t.history, n, b);
    }
  }

  lemma SendStep(t: State, gen: nat) returns (send: Event, p: Publication)
    requires Inv(t) && gen in t.stages && t.stages[gen].version == t.Version()
    ensures send.SendPublish? && Enabled(t, send) && HasRow(t, send) && PublicationFor(p, t.history)
    ensures p.epoch == t.epoch && p.version == t.Version() && forall b :: b in p.drop <==> b in t.cache.counts
    ensures Next(t, send) == t.(sent := t.sent + {PublishMessage(gen, p)})
  {
    hide Inv;
    assert |t.history| > 0 by { InvHistory(t); }
    var boards := Listed(BoardsOf(t.Durable()));
    var drop := Listed(t.cache.counts.Keys);
    send := SendPublish(gen, boards, drop);
    p := Publication(t.epoch, t.Version(), boards, CountsOf(t.Durable(), boards), drop);
  }

  lemma InvHistory(t: State)
    requires Inv(t)
    ensures |t.history| > 0
  {}

  lemma DeliverStep(u: State, gen: nat, p: Publication, n: nat)
    requires PublishMessage(gen, p) in u.sent && gen in u.stages && |u.history| > 0
    ensures var ev := DeliverPublish(PublishMessage(gen, p), n);
            && Enabled(u, ev) && HasRow(u, ev)
            && Next(u, ev).cache == Publish(Redis(u.cache, u.stages[gen]), p, n).cache
            && Next(u, ev).history == u.history && Next(u, ev).epoch == u.epoch
  {
    hide Publish;
  }

  /**
    From every reachable state a rebuild that nothing disturbs makes the cache answer every read at the
    durable version: of every board with rows, and of every other board without keys or with a recorded count.
    */
  lemma RebuildServes(epoch: nat, before: seq<Event>) returns (evs: seq<Event>)
    requires Legal(Init(epoch), before)
    ensures var s := Run(Init(epoch), before);
            && Legal(s, evs) && (forall ev :: ev in evs ==> Rebuilds(ev))
            && |s.history| > 0 && Run(s, evs).history == s.history && Run(s, evs).epoch == s.epoch
            && forall b, q, max ::
                 At(s.Durable(), b) != map[] || b in s.cache.counts || (b !in s.cache.z && b !in s.cache.h) ==>
                   ReadScript(Run(s, evs).cache, s.epoch, s.Version(), b, q, max).Some?
  {
    hide Inv, Legal, Run, Enabled, Next, Staged, HasStaged, BoardHeld, Current, ReadScript;
    InitInv(epoch);
    RunKeepsInv(Init(epoch), before);
    var s := Run(Init(epoch), before);
    var first, gen := Begun(s);
    var s1 := Next(s, first);
    One(s, first);
    StepKeepsInv(s, first);
    var stage := StageRows(s1, gen, RowsOf(s.Durable()));
    var t := Run(s1, stage);
    RunKeepsInv(s1, stage);
    StagedState(s1, t, gen);
    AllStaged(s1, t, gen);
    var publish := PublishRuns(t, gen);
    Append(s1, stage, publish);
    Append(s, [first], stage + publish);
    evs := [first] + (stage + publish);
    var end := Run(t, publish);
    assert Run(s, evs) == end;
    forall b, q, max | At(s.Durable(), b) != map[] || b in s.cache.counts || (b !in s.cache.z && b !in s.cache.h)
      ensures ReadScript(end.cache, s.epoch, s.Version(), b, q, max).Some?
    {
      HeldIsServed(end.cache, s.epoch, s.Version(), b, s.Durable(), q, max);
    }
  }

  lemma Begun(s: State) returns (ev: Event, gen: nat)
    requires Inv(s)
    ensures ev == BeginRebuild(gen) && Enabled(s, ev) && HasRow(s, ev) && gen !in s.stages && |s.history| > 0
    ensures Next(s, ev) == s.(stages := s.stages[gen := Stage(s.Version(), map[], map[])])
  {
    gen := FreshGeneration(s.stages.Keys);
    ev := BeginRebuild(gen);
  }

  lemma StagedState(s: State, t: State, gen: nat)
    requires gen in s.stages && s.stages[gen].version < |s.history|
    requires HasStaged(s, t, gen, RowsOf(s.history[s.stages[gen].version])) && Inv(t)
    ensures gen in t.stages && t.stages[gen].version == s.stages[gen].version && StageSound(t.stages[gen], s.history)
    ensures t.cache == s.cache && t.history == s.history && t.epoch == s.epoch
  {}
}
