/** The Redis projection of one metric (internal/analytics/ranking.go): what the diff, publish and
    read scripts do to the metadata hash, the sorted sets and the entity hashes, and when a cached
    board is the durable board of the version the metadata names. */
module Projection {
  import opened Options
  import opened ByteStrings
  import opened MemberCodec
  import opened Ranking

  /** The metric's rows of `flame_scores`: board name to entity scores. */
  type Scores = map<Bytes, Board>

  function At(s: Scores, b: Bytes): Board { if b in s then s[b] else map[] }

  function Lookup(s: Scores, b: Bytes, e: Bytes): Option<Score> {
    if e in At(s, b) then Some(At(s, b)[e]) else None
  }

  /** scoreChange: one row before and after the transaction. */
  datatype Change = Change(board: Bytes, entity: Bytes, was: Option<Score>, now: Option<Score>)

  function Put(s: Scores, ch: Change): Scores {
    s[ch.board := if ch.now.Some? then At(s, ch.board)[ch.entity := ch.now.value]
                  else At(s, ch.board) - {ch.entity}]
  }

  function PutAll(s: Scores, changes: seq<Change>): Scores
    decreases |changes|
  {
    if changes == [] then s else PutAll(Put(s, changes[0]), changes[1..])
  }

  /** Every change names the row's actual previous value. */
  predicate Valid(changes: seq<Change>, s: Scores) {
    changes == []
    || (changes[0].was == Lookup(s, changes[0].board, changes[0].entity)
        && Valid(changes[1..], Put(s, changes[0])))
  }

  function Touched(changes: seq<Change>): set<Bytes> { set ch | ch in changes :: ch.board }

  // ---- Redis ----

  /** Metadata hash (epoch, version, one count field per board), sorted sets and entity hashes.
      Redis has no empty collections, so a missing key reads as empty. */
  datatype Cache = Cache(epoch: Option<nat>, version: Option<nat>, counts: map<Bytes, nat>,
                         z: map<Bytes, set<Bytes>>, h: map<Bytes, map<Bytes, Bytes>>)
  {
    function Z(b: Bytes): set<Bytes> { if b in z then z[b] else {} }
    function H(b: Bytes): map<Bytes, Bytes> { if b in h then h[b] else map[] }
    function Count(b: Bytes): nat { if b in counts then counts[b] else 0 }
    /** ZCARD and HLEN both equal the recorded count. */
    predicate FullSize(b: Bytes) { |Z(b)| == Count(b) && |H(b)| == Count(b) }
  }

  /** Keys a rebuild stages under its own generation token, and the version it read. */
  datatype Stage = Stage(version: nat, z: map<Bytes, set<Bytes>>, h: map<Bytes, map<Bytes, Bytes>>)
  {
    function Z(b: Bytes): set<Bytes> { if b in z then z[b] else {} }
    function H(b: Bytes): map<Bytes, Bytes> { if b in h then h[b] else map[] }
  }

  // ---- applyProjectionLua ----

  function ApplyChange(c: Cache, ch: Change): Cache {
    var kept := if ch.was.Some? then c.Z(ch.board) - {Encode(ch.was.value, ch.entity)} else c.Z(ch.board);
    if ch.now.Some? then
      var member := Encode(ch.now.value, ch.entity);
      c.(z := c.z[ch.board := kept + {member}], h := c.h[ch.board := c.H(ch.board)[ch.entity := member]])
    else
      c.(z := c.z[ch.board := kept], h := c.h[ch.board := c.H(ch.board) - {ch.entity}])
  }

  function ApplyChanges(c: Cache, changes: seq<Change>): Cache
    decreases |changes|
  {
    if changes == [] then c else ApplyChanges(ApplyChange(c, changes[0]), changes[1..])
  }

  function Recount(c: Cache, boards: set<Bytes>): Cache {
    c.(counts := map b | b in c.counts.Keys + boards :: if b in boards then |c.Z(b)| else c.counts[b])
  }

  function ApplyDiff(c: Cache, epoch: nat, prev: nat, changes: seq<Change>): Cache {
    if c.epoch != Some(epoch) || c.version != Some(prev) then c
    else if exists ch :: ch in changes && !c.FullSize(ch.board) then c.(version := None)
    else Recount(ApplyChanges(c, changes), Touched(changes)).(version := Some(prev + 1))
  }

  // ---- publishProjection, command by command ----

  datatype Command =
    | DropBoard(board: Bytes)
    | DropMeta
    | RenameZ(board: Bytes)
    | RenameH(board: Bytes)
    | SetCount(board: Bytes)
    | SetValid(epoch: nat, version: nat)

  datatype Redis = Redis(cache: Cache, stage: Stage)

  function Do(r: Redis, cmd: Command): Redis {
    var c, st := r.cache, r.stage;
    match cmd
    case DropBoard(b) => Redis(c.(z := c.z - {b}, h := c.h - {b}), st)
    case DropMeta => Redis(c.(epoch := None, version := None, counts := map[]), st)
    case RenameZ(b) => if st.Z(b) == {} then r else Redis(c.(z := c.z[b := st.Z(b)]), st.(z := st.z - {b}))
    case RenameH(b) => if st.H(b) == map[] then r else Redis(c.(h := c.h[b := st.H(b)]), st.(h := st.h - {b}))
    case SetCount(b) => Redis(c.(counts := c.counts[b := |c.Z(b)|]), st)
    case SetValid(epoch, version) => Redis(c.(epoch := Some(epoch), version := Some(version)), st)
  }

  function Exec(r: Redis, cmds: seq<Command>): Redis
    decreases |cmds|
  {
    if cmds == [] then r else Exec(Do(r, cmds[0]), cmds[1..])
  }

  function Drops(boards: seq<Bytes>): (cmds: seq<Command>)
    ensures |cmds| == |boards|
  {
    seq(|boards|, i requires 0 <= i < |boards| => DropBoard(boards[i]))
  }

  function Moves(boards: seq<Bytes>): seq<Command> {
    if boards == [] then []
    else [DropBoard(boards[0]), RenameZ(boards[0]), RenameH(boards[0]), SetCount(boards[0])] + Moves(boards[1..])
  }

  /** The staged boards and their row counts, and the boards named by the old metadata. */
  datatype Publication = Publication(epoch: nat, version: nat, boards: seq<Bytes>, counts: map<Bytes, nat>,
                                     drop: seq<Bytes>)

  predicate StagingComplete(st: Stage, p: Publication) {
    forall b :: b in p.boards ==> b in p.counts && |st.Z(b)| == p.counts[b] && |st.H(b)| == p.counts[b]
  }

  function PublishCommands(p: Publication): seq<Command> {
    Drops(p.drop) + [DropMeta] + Moves(p.boards) + [SetValid(p.epoch, p.version)]
  }

  /** The publish script, stopped after `steps` commands by an error that Redis does not roll back. */
  function Publish(r: Redis, p: Publication, steps: nat): Redis {
    if !StagingComplete(r.stage, p) then r
    else
      var cmds := PublishCommands(p);
      Exec(r, if steps < |cmds| then cmds[..steps] else cmds)
  }

  // ---- readProjection and cachedBoard ----

  function ReadScript(c: Cache, epoch: nat, version: nat, b: Bytes, q: Query, max: nat): Option<Raw> {
    if c.epoch != Some(epoch) || c.version != Some(version) || !c.FullSize(b) then None
    else ReadMembers(c.Z(b), c.H(b), q, max)
  }

  // ---- Soundness of a cache against the versions PostgreSQL has had ----

  ghost predicate Exact(c: Cache, b: Bytes, s: Scores) {
    c.Z(b) == Members(At(s, b)) && c.H(b) == MemberMap(At(s, b))
  }

  /** The recorded count is the durable one, and a collection of that size is the durable one. */
  ghost predicate BoardSound(c: Cache, b: Bytes, s: Scores) {
    && c.Count(b) == |At(s, b)|
    && (|c.Z(b)| == |At(s, b)| ==> c.Z(b) == Members(At(s, b)))
    && (|c.H(b)| == |At(s, b)| ==> c.H(b) == MemberMap(At(s, b)))
  }

  ghost predicate Sound(c: Cache, history: seq<Scores>) {
    c.version.Some? ==>
      c.version.value < |history| && forall b :: BoardSound(c, b, history[c.version.value])
  }

  ghost predicate Submap(m: map<Bytes, Bytes>, n: map<Bytes, Bytes>) {
    forall k :: k in m ==> k in n && m[k] == n[k]
  }

  /** Staging holds only rows of its version; eviction and expiry may have taken any of its keys. */
  ghost predicate StageSound(st: Stage, history: seq<Scores>) {
    && st.version < |history|
    && forall b :: st.Z(b) <= Members(At(history[st.version], b))
                   && Submap(st.H(b), MemberMap(At(history[st.version], b)))
  }

  /** The boards a rebuild publishes are those with rows in the version it read. */
  ghost predicate PublicationFor(p: Publication, history: seq<Scores>) {
    && p.version < |history|
    && (forall i, j :: 0 <= i < j < |p.boards| ==> p.boards[i] != p.boards[j])
    && (forall b :: At(history[p.version], b) != map[] <==> b in p.boards)
    && (forall b :: b in p.boards ==> b in p.counts && p.counts[b] == |At(history[p.version], b)|)
  }

  // ---- The diff script keeps a sound cache sound ----

  lemma ApplyChangeExact(c: Cache, ch: Change, s: Scores)
    requires Exact(c, ch.board, s) && ch.was == Lookup(s, ch.board, ch.entity)
    ensures Exact(ApplyChange(c, ch), ch.board, Put(s, ch))
  {
    hide Encode, Members, MemberMap;
    var b, e := At(s, ch.board), ch.entity;
    var c' := ApplyChange(c, ch);
    if e in b {
      MembersPut(b, e, b[e]);
      assert b[e := b[e]] == b;
    } else {
      assert b - {e} == b;
    }
    MemberMapRemove(b, e);
    if ch.now.Some? { MembersPut(b, e, ch.now.value); }
  }

  lemma MemberMapRemove(b: Board, e: Bytes)
    ensures MemberMap(b - {e}) == MemberMap(b) - {e}
  {
    hide Encode;
  }

  lemma {:induction false} ApplyChangesExact(c: Cache, changes: seq<Change>, s: Scores, boards: set<Bytes>)
    requires Touched(changes) <= boards && Valid(changes, s)
    requires forall b :: b in boards ==> Exact(c, b, s)
    ensures var c', s' := ApplyChanges(c, changes), PutAll(s, changes);
            && (forall b :: b in boards ==> Exact(c', b, s'))
            && (forall b :: b !in boards ==> c'.Z(b) == c.Z(b) && c'.H(b) == c.H(b) && At(s', b) == At(s, b))
            && c'.counts == c.counts && c'.epoch == c.epoch && c'.version == c.version
    decreases |changes|
  {
    hide Members, MemberMap, Encode;
    if changes != [] {
      var ch := changes[0];
      assert ch in changes && ch.board in Touched(changes);
      ApplyChangeExact(c, ch, s);
      var c1, s1 := ApplyChange(c, ch), Put(s, ch);
      forall b ensures b != ch.board ==> c1.Z(b) == c.Z(b) && c1.H(b) == c.H(b) && At(s1, b) == At(s, b) {}
      forall b | b in boards ensures Exact(c1, b, s1) {}
      assert Touched(changes[1..]) <= Touched(changes);
      ApplyChangesExact(c1, changes[1..], s1, boards);
    }
  }

  lemma ApplyDiffSound(c: Cache, epoch: nat, prev: nat, changes: seq<Change>, history: seq<Scores>)
    requires Sound(c, history)
    requires prev + 1 < |history| && Valid(changes, history[prev])
             && history[prev + 1] == PutAll(history[prev], changes)
    ensures Sound(ApplyDiff(c, epoch, prev, changes), history)
  {
    hide BoardSound, ApplyChanges, PutAll, Valid, Recount, Touched;
    var c' := ApplyDiff(c, epoch, prev, changes);
    if c.epoch == Some(epoch) && c.version == Some(prev) && !(exists ch :: ch in changes && !c.FullSize(ch.board)) {
      var s, s' := history[prev], history[prev + 1];
      DiffBoardsSound(c, changes, s, s');
      forall b ensures BoardSound(c', b, s') {
        SameBoards(Recount(ApplyChanges(c, changes), Touched(changes)), c', b, s');
      }
    }
  }

  lemma SameBoards(c: Cache, c': Cache, b: Bytes, s: Scores)
    requires BoardSound(c, b, s) && c'.z == c.z && c'.h == c.h && c'.counts == c.counts
    ensures BoardSound(c', b, s)
  {}

  lemma DiffBoardsSound(c: Cache, changes: seq<Change>, s: Scores, s': Scores)
    requires (forall b :: BoardSound(c, b, s)) && Valid(changes, s) && s' == PutAll(s, changes)
    requires forall ch :: ch in changes ==> c.FullSize(ch.board)
    ensures forall b :: BoardSound(Recount(ApplyChanges(c, changes), Touched(changes)), b, s')
  {
    hide Members, MemberMap, ApplyChanges, PutAll, Valid, Recount;
    var boards := Touched(changes);
    forall b | b in boards ensures Exact(c, b, s) {
      var ch :| ch in changes && ch.board == b;
      assert BoardSound(c, b, s);
    }
    ApplyChangesExact(c, changes, s, boards);
    forall b ensures BoardSound(Recount(ApplyChanges(c, changes), boards), b, s') {
      RecountBoardSound(c, ApplyChanges(c, changes), b, s, s', boards);
    }
  }

  lemma RecountBoardSound(c: Cache, applied: Cache, b: Bytes, s: Scores, s': Scores, boards: set<Bytes>)
    requires BoardSound(c, b, s)
    requires applied.counts == c.counts
    requires if b in boards then Exact(applied, b, s')
             else applied.Z(b) == c.Z(b) && applied.H(b) == c.H(b) && At(s', b) == At(s, b)
    ensures BoardSound(Recount(applied, boards), b, s')
  {
    hide Members, MemberMap;
    MembersSize(At(s', b));
  }

  // ---- The publish script keeps a sound cache sound, wherever it stops ----

  lemma EmptyBoard()
    ensures Members(map[]) == {} && MemberMap(map[]) == map[]
  {}

  lemma {:induction false} ExecAppend(r: Redis, a: seq<Command>, b: seq<Command>)
    ensures Exec(r, a + b) == Exec(Exec(r, a), b)
    decreases |a|
  {
    if a == [] {
      assert a + b == b;
    } else {
      assert (a + b)[1..] == a[1..] + b;
      ExecAppend(Do(r, a[0]), a[1..], b);
    }
  }

  lemma DropBoardSound(c: Cache, zs: set<Bytes>, hs: set<Bytes>, history: seq<Scores>)
    requires Sound(c, history)
    ensures Sound(c.(z := c.z - zs, h := c.h - hs), history)
  {
    hide BoardSound;
    var c' := c.(z := c.z - zs, h := c.h - hs);
    if c.version.Some? {
      forall b ensures BoardSound(c', b, history[c.version.value]) {
        DropOneBoard(c, zs, hs, b, history[c.version.value]);
      }
    }
  }

  lemma DropOneBoard(c: Cache, zs: set<Bytes>, hs: set<Bytes>, b: Bytes, s: Scores)
    requires BoardSound(c, b, s)
    ensures BoardSound(c.(z := c.z - zs, h := c.h - hs), b, s)
  {
    hide Members, MemberMap;
    EmptyBoard();
    if |At(s, b)| == 0 { assert At(s, b) == map[]; }
  }

  lemma {:induction false} DropsSound(r: Redis, boards: seq<Bytes>, history: seq<Scores>)
    requires Sound(r.cache, history)
    ensures Sound(Exec(r, Drops(boards)).cache, history) && Exec(r, Drops(boards)).stage == r.stage
    decreases |boards|
  {
    hide Sound;
    if boards != [] {
      DropBoardSound(r.cache, {boards[0]}, {boards[0]}, history);
      assert Drops(boards)[1..] == Drops(boards[1..]);
      DropsSound(Do(r, Drops(boards)[0]), boards[1..], history);
    }
  }

  lemma {:induction false} StaysInvalid(r: Redis, cmds: seq<Command>)
    requires r.cache.version.None? && forall cmd :: cmd in cmds ==> !cmd.SetValid?
    ensures Exec(r, cmds).cache.version.None?
    decreases |cmds|
  {
    if cmds != [] { StaysInvalid(Do(r, cmds[0]), cmds[1..]); }
  }

  lemma {:induction false} MovesNeverValidate(boards: seq<Bytes>)
    ensures forall cmd :: cmd in Moves(boards) ==> !cmd.SetValid?
  {
    if boards != [] { MovesNeverValidate(boards[1..]); }
  }

  lemma ExecFour(r: Redis, b: Bytes)
    ensures Exec(r, [DropBoard(b), RenameZ(b), RenameH(b), SetCount(b)])
            == Do(Do(Do(Do(r, DropBoard(b)), RenameZ(b)), RenameH(b)), SetCount(b))
  {
    hide Do;
    var r1 := Do(r, DropBoard(b));
    var r2 := Do(r1, RenameZ(b));
    var r3 := Do(r2, RenameH(b));
    var r4 := Do(r3, SetCount(b));
    var cmds := [DropBoard(b), RenameZ(b), RenameH(b), SetCount(b)];
    assert cmds[1..] == [RenameZ(b), RenameH(b), SetCount(b)];
    assert cmds[1..][1..] == [RenameH(b), SetCount(b)];
    assert cmds[1..][1..][1..] == [SetCount(b)];
    assert Exec(r3, [SetCount(b)]) == r4;
    assert Exec(r2, [RenameH(b), SetCount(b)]) == r4;
    assert Exec(r1, [RenameZ(b), RenameH(b), SetCount(b)]) == r4;
  }

  lemma MoveOne(r: Redis, b: Bytes)
    ensures var x := Exec(r, [DropBoard(b), RenameZ(b), RenameH(b), SetCount(b)]);
            && x.cache.Z(b) == r.stage.Z(b) && x.cache.H(b) == r.stage.H(b) && x.cache.Count(b) == |r.stage.Z(b)|
            && forall d :: d != b ==>
                 && x.cache.Z(d) == r.cache.Z(d) && x.cache.H(d) == r.cache.H(d)
                 && x.cache.Count(d) == r.cache.Count(d)
                 && x.stage.Z(d) == r.stage.Z(d) && x.stage.H(d) == r.stage.H(d)
  {
    hide Exec;
    ExecFour(r, b);
    forall d | d != b
      ensures var x := Do(Do(Do(Do(r, DropBoard(b)), RenameZ(b)), RenameH(b)), SetCount(b));
              && x.cache.Z(d) == r.cache.Z(d) && x.cache.H(d) == r.cache.H(d)
              && x.cache.Count(d) == r.cache.Count(d)
              && x.stage.Z(d) == r.stage.Z(d) && x.stage.H(d) == r.stage.H(d)
    {
      MoveOther(r, b, d);
    }
  }

  lemma MoveOther(r: Redis, b: Bytes, d: Bytes)
    requires d != b
    ensures var x := Do(Do(Do(Do(r, DropBoard(b)), RenameZ(b)), RenameH(b)), SetCount(b));
            && x.cache.Z(d) == r.cache.Z(d) && x.cache.H(d) == r.cache.H(d)
            && x.cache.Count(d) == r.cache.Count(d)
            && x.stage.Z(d) == r.stage.Z(d) && x.stage.H(d) == r.stage.H(d)
  {}

  lemma {:induction false} MovesInstall(r: Redis, boards: seq<Bytes>)
    requires forall i, j :: 0 <= i < j < |boards| ==> boards[i] != boards[j]
    ensures var x := Exec(r, Moves(boards)).cache;
            forall b ::
              && (b in boards ==> x.Z(b) == r.stage.Z(b) && x.H(b) == r.stage.H(b) && x.Count(b) == |r.stage.Z(b)|)
              && (b !in boards ==> x.Z(b) == r.cache.Z(b) && x.H(b) == r.cache.H(b) && x.Count(b) == r.cache.Count(b))
    decreases |boards|
  {
    if boards != [] {
      var first := [DropBoard(boards[0]), RenameZ(boards[0]), RenameH(boards[0]), SetCount(boards[0])];
      ExecAppend(r, first, Moves(boards[1..]));
      MoveOne(r, boards[0]);
      MovesInstall(Exec(r, first), boards[1..]);
      hide Exec;
      forall b ensures b in boards <==> b == boards[0] || b in boards[1..] {}
      assert boards[0] !in boards[1..];
    }
  }

  lemma SubsetOfFullSize(a: set<Bytes>, b: set<Bytes>)
    requires a <= b && |a| == |b|
    ensures a == b
  {
    if a != b {
      var x :| x in b && x !in a;
      assert a <= b - {x};
      SubsetSize(a, b - {x});
    }
  }

  lemma SubsetSize(a: set<Bytes>, b: set<Bytes>)
    requires a <= b
    ensures |a| <= |b|
  {
    assert b == a + (b - a);
  }

  /** Staging of the counted size is complete, even if keys were evicted and written again midway. */
  lemma FullStagingIsComplete(st: Stage, b: Bytes, history: seq<Scores>)
    requires StageSound(st, history)
    requires var n := |At(history[st.version], b)|; |st.Z(b)| == n && |st.H(b)| == n
    ensures st.Z(b) == Members(At(history[st.version], b)) && st.H(b) == MemberMap(At(history[st.version], b))
  {
    hide Members, MemberMap;
    var board := At(history[st.version], b);
    MembersSize(board);
    assert st.Z(b) <= Members(board) && Submap(st.H(b), MemberMap(board));
    SubsetOfFullSize(st.Z(b), Members(board));
    assert |st.H(b).Keys| == |MemberMap(board).Keys|;
    SubsetOfFullSize(st.H(b).Keys, MemberMap(board).Keys);
  }

  lemma PublishAllSound(r: Redis, p: Publication, history: seq<Scores>)
    requires StageSound(r.stage, history) && r.stage.version == p.version
    requires PublicationFor(p, history) && StagingComplete(r.stage, p) && Sound(r.cache, history)
    ensures Sound(Exec(r, PublishCommands(p)).cache, history)
  {
    hide Exec, Members, MemberMap, Sound, StageSound;
    var s := history[p.version];
    var dropped := Exec(r, Drops(p.drop));
    DropsSound(r, p.drop, history);
    var bare := Do(dropped, DropMeta);
    var moved := Exec(bare, Moves(p.boards));
    MovesInstall(bare, p.boards);
    var done := Do(moved, SetValid(p.epoch, p.version));
    PublishInPhases(r, p);
    forall b ensures BoardSound(done.cache, b, s) {
      EmptyBoard();
      if b in p.boards {
        FullStagingIsComplete(r.stage, b, history);
      } else {
        assert At(s, b) == map[];
      }
    }
    PublishedSound(done.cache, p.version, history);
  }

  lemma PublishInPhases(r: Redis, p: Publication)
    ensures Exec(r, PublishCommands(p))
            == Do(Exec(Do(Exec(r, Drops(p.drop)), DropMeta), Moves(p.boards)), SetValid(p.epoch, p.version))
  {
    ExecAppend(r, Drops(p.drop), [DropMeta]);
    ExecAppend(r, Drops(p.drop) + [DropMeta], Moves(p.boards));
    ExecAppend(r, Drops(p.drop) + [DropMeta] + Moves(p.boards), [SetValid(p.epoch, p.version)]);
  }

  lemma PublishedSound(c: Cache, version: nat, history: seq<Scores>)
    requires c.version == Some(version) && version < |history|
    requires forall b :: BoardSound(c, b, history[version])
    ensures Sound(c, history)
  {}

  /** Between deleting the metadata and the last command no version is published. */
  lemma MidPublishInvalid(r: Redis, p: Publication, steps: nat)
    requires |p.drop| < steps < |PublishCommands(p)|
    ensures Exec(r, PublishCommands(p)[..steps]).cache.version.None?
  {
    hide Exec;
    var drops, moves := Drops(p.drop), Moves(p.boards);
    var rest := moves[..steps - |drops| - 1];
    assert PublishCommands(p)[..steps] == drops + [DropMeta] + rest;
    ExecAppend(r, drops + [DropMeta], rest);
    ExecAppend(r, drops, [DropMeta]);
    DropMetaInvalid(Exec(r, drops));
    MovesNeverValidate(p.boards);
    StaysInvalid(Exec(r, drops + [DropMeta]), rest);
  }

  lemma DropMetaInvalid(r: Redis)
    ensures Exec(r, [DropMeta]).cache.version.None?
  {}

  /** Wherever an error stops the publish script, what it leaves is sound for the version it names. */
  lemma PublishPrefixSound(r: Redis, p: Publication, steps: nat, history: seq<Scores>)
    requires StageSound(r.stage, history) && r.stage.version == p.version
    requires PublicationFor(p, history) && Sound(r.cache, history)
    ensures Sound(Publish(r, p, steps).cache, history)
  {
    hide StageSound, PublicationFor, Exec, BoardSound;
    var cmds := PublishCommands(p);
    if StagingComplete(r.stage, p) {
      if steps >= |cmds| {
        PublishAllSound(r, p, history);
      } else if steps <= |p.drop| {
        assert cmds[..steps] == Drops(p.drop[..steps]);
        DropsSound(r, p.drop[..steps], history);
      } else {
        MidPublishInvalid(r, p, steps);
      }
    }
  }

  lemma DoStageShrinks(r: Redis, cmd: Command)
    ensures var x := Do(r, cmd).stage;
            x.version == r.stage.version && forall b :: x.Z(b) <= r.stage.Z(b) && Submap(x.H(b), r.stage.H(b))
  {}

  lemma {:induction false} ExecStageSound(r: Redis, cmds: seq<Command>, history: seq<Scores>)
    requires StageSound(r.stage, history)
    ensures StageSound(Exec(r, cmds).stage, history) && Exec(r, cmds).stage.version == r.stage.version
    decreases |cmds|
  {
    hide Members, MemberMap;
    if cmds != [] {
      DoStageShrinks(r, cmds[0]);
      ExecStageSound(Do(r, cmds[0]), cmds[1..], history);
    }
  }

  // ---- Reading ----

  /** A reply to a reader that asked for version `n` is SQL's answer over the scores of version `n`. */
  lemma SoundReadIsSqlAnswer(c: Cache, history: seq<Scores>, epoch: nat, n: nat, b: Bytes, rows: seq<Row>,
                             q: Query, max: nat)
    requires Sound(c, history) && n < |history| && Listing(At(history[n], b), rows)
    requires ReadScript(c, epoch, n, b, q, max).Some?
    ensures CachedAnswer(ReadScript(c, epoch, n, b, q, max).value, q, max)
            == SqlAnswer(At(history[n], b), rows, q, max)
  {
    hide Members, MemberMap, ReadMembers, CachedAnswer, SqlAnswer, Listing;
    assert BoardSound(c, b, history[n]);
    CompleteBoardAnswersLikeSql(At(history[n], b), rows, q, max);
  }
}
