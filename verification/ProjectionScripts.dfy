/** The Lua scripts of internal/analytics/ranking.go as they run: loops over the arguments that change
    one metric's Redis keys in place, proved against the functions of module Projection. */
module ProjectionScripts {
  import opened Options
  import opened ByteStrings
  import opened MemberCodec
  import opened Ranking
  import opened Projection

  class MetricKeys {
    var epoch: Option<nat>
    var version: Option<nat>
    var counts: map<Bytes, nat>
    var z: map<Bytes, set<Bytes>>
    var h: map<Bytes, map<Bytes, Bytes>>
    // Staging keys of one rebuild generation.
    var staged: nat
    var stagedZ: map<Bytes, set<Bytes>>
    var stagedH: map<Bytes, map<Bytes, Bytes>>

    function Keys(): Cache
      reads this
    {
      Cache(epoch, version, counts, z, h)
    }

    function Staging(): Stage
      reads this
    {
      Stage(staged, stagedZ, stagedH)
    }

    constructor (staged: nat)
      ensures Keys() == Cache(None, None, map[], map[], map[]) && Staging() == Stage(staged, map[], map[])
    {
      epoch, version, counts, z, h := None, None, map[], map[], map[];
      this.staged, stagedZ, stagedH := staged, map[], map[];
    }

    /** applyProjectionLua: check every touched board once, apply the changes in order, then record
        the new sizes and the next version. */
    method Apply(epoch: nat, prev: nat, changes: seq<Change>) returns (applied: bool)
      modifies this
      ensures Keys() == ApplyDiff(old(Keys()), epoch, prev, changes)
      ensures Staging() == old(Staging())
      ensures applied ==> version == Some(prev + 1)
      ensures !applied ==> version != Some(prev) || this.epoch != Some(epoch)
    {
      hide ApplyChanges, Recount, Touched;
      if this.epoch != Some(epoch) || version != Some(prev) { return false; }
      var full, checked := CheckSizes(changes);
      if !full {
        version := None;
        return false;
      }
      ApplyEach(changes);
      Record(checked);
      version := Some(prev + 1);
      applied := true;
    }

    /** The first loop: stop at a board whose sizes differ from its recorded count. */
    method CheckSizes(changes: seq<Change>) returns (full: bool, checked: set<Bytes>)
      ensures full <==> forall ch :: ch in changes ==> Keys().FullSize(ch.board)
      ensures full ==> checked == Touched(changes)
    {
      checked := {};
      for i := 0 to |changes|
        invariant forall j :: 0 <= j < i ==> changes[j].board in checked && Keys().FullSize(changes[j].board)
        invariant checked <= Touched(changes) && forall b :: b in checked ==> Keys().FullSize(b)
      {
        assert changes[i] in changes;
        var b := changes[i].board;
        if b !in checked {
          if !Keys().FullSize(b) { return false, checked; }
          checked := checked + {b};
        }
      }
      full := true;
    }

    /** The second loop. */
    method ApplyEach(changes: seq<Change>)
      modifies this`z, this`h
      ensures Keys() == ApplyChanges(old(Keys()), changes)
    {
      hide ApplyChange;
      for i := 0 to |changes|
        invariant ApplyChanges(Keys(), changes[i..]) == ApplyChanges(old(Keys()), changes)
        invariant Keys().epoch == old(Keys().epoch) && Keys().version == old(Keys().version)
      {
        assert changes[i..][0] == changes[i] && changes[i..][1..] == changes[i + 1..];
        ApplyOne(changes[i]);
      }
    }

    /** ZREM of the old member, then ZADD and HSET of the new one or HDEL. */
    method ApplyOne(ch: Change)
      modifies this`z, this`h
      ensures Keys() == ApplyChange(old(Keys()), ch)
    {
      hide Encode;
      var b := ch.board;
      var kept := Keys().Z(b);
      if ch.was.Some? { kept := kept - {Encode(ch.was.value, ch.entity)}; }
      if ch.now.Some? {
        var member := Encode(ch.now.value, ch.entity);
        z, h := z[b := kept + {member}], h[b := Keys().H(b)[ch.entity := member]];
      } else {
        z, h := z[b := kept], h[b := Keys().H(b) - {ch.entity}];
      }
    }

    /** The last loop: one count per checked board, in whatever order `pairs` yields them. */
    method Record(boards: set<Bytes>)
      modifies this`counts
      ensures Keys() == Recount(old(Keys()), boards)
    {
      var todo := boards;
      while todo != {}
        invariant todo <= boards
        invariant Keys() == Recount(old(Keys()), boards - todo)
      {
        var b :| b in todo;
        counts := counts[b := |Keys().Z(b)|];
        todo := todo - {b};
        assert Keys() == Recount(old(Keys()), boards - todo);
      }
      assert boards - todo == boards;
    }

    /** publishProjection run to its end. */
    method Publish(p: Publication) returns (published: bool)
      requires forall b :: b in p.boards ==> b in p.counts
      modifies this
      ensures Redis(Keys(), Staging())
              == Projection.Publish(old(Redis(Keys(), Staging())), p, |PublishCommands(p)|)
      ensures published <==> old(StagingComplete(Staging(), p))
    {
      hide Exec, Moves, Drops;
      published := CheckStaging(p);
      if published {
        ghost var before := Redis(Keys(), Staging());
        ghost var tail := [SetValid(p.epoch, p.version)];
        DropOld(p.drop, [DropMeta] + (Moves(p.boards) + tail));
        assert ([DropMeta] + (Moves(p.boards) + tail))[1..] == Moves(p.boards) + tail;
        ExecHead(Redis(Keys(), Staging()), DropMeta, Moves(p.boards) + tail);
        epoch, version, counts := None, None, map[];
        InstallAll(p.boards, tail);
        ExecLast(Redis(Keys(), Staging()), SetValid(p.epoch, p.version));
        epoch, version := Some(p.epoch), Some(p.version);
        assert PublishCommands(p) == Drops(p.drop) + ([DropMeta] + (Moves(p.boards) + tail));
      }
    }

    method CheckStaging(p: Publication) returns (complete: bool)
      requires forall b :: b in p.boards ==> b in p.counts
      ensures complete <==> StagingComplete(Staging(), p)
    {
      for i := 0 to |p.boards|
        invariant forall j :: 0 <= j < i ==> |Staging().Z(p.boards[j])| == p.counts[p.boards[j]]
                                             && |Staging().H(p.boards[j])| == p.counts[p.boards[j]]
      {
        var b := p.boards[i];
        if |Staging().Z(b)| != p.counts[b] || |Staging().H(b)| != p.counts[b] { return false; }
      }
      complete := true;
    }

    /** The loop over the boards of the old metadata; `rest` is what the script still has to do. */
    method DropOld(boards: seq<Bytes>, ghost rest: seq<Command>)
      modifies this`z, this`h
      ensures Exec(Redis(Keys(), Staging()), rest) == Exec(old(Redis(Keys(), Staging())), Drops(boards) + rest)
    {
      hide Exec;
      for i := 0 to |boards|
        invariant Exec(Redis(Keys(), Staging()), Drops(boards[i..]) + rest)
                  == Exec(old(Redis(Keys(), Staging())), Drops(boards) + rest)
      {
        assert Drops(boards[i..]) + rest == [DropBoard(boards[i])] + (Drops(boards[i + 1..]) + rest);
        ExecHead(Redis(Keys(), Staging()), DropBoard(boards[i]), Drops(boards[i + 1..]) + rest);
        z, h := z - {boards[i]}, h - {boards[i]};
      }
      assert Drops(boards[|boards|..]) + rest == rest;
    }

    method InstallAll(boards: seq<Bytes>, ghost rest: seq<Command>)
      modifies this
      ensures Exec(Redis(Keys(), Staging()), rest) == Exec(old(Redis(Keys(), Staging())), Moves(boards) + rest)
    {
      hide Exec;
      for i := 0 to |boards|
        invariant Exec(Redis(Keys(), Staging()), Moves(boards[i..]) + rest)
                  == Exec(old(Redis(Keys(), Staging())), Moves(boards) + rest)
      {
        assert boards[i..] == [boards[i]] + boards[i + 1..];
        FourCommands(Redis(Keys(), Staging()), boards[i], boards[i + 1..], rest);
        Install(boards[i]);
      }
      assert Moves(boards[|boards|..]) + rest == rest;
    }

    /** One round of the publish loop: delete the board, move its staging keys, record its size. */
    method Install(b: Bytes)
      modifies this
      ensures Redis(Keys(), Staging())
              == Do(Do(Do(Do(old(Redis(Keys(), Staging())), DropBoard(b)), RenameZ(b)), RenameH(b)), SetCount(b))
    {
      ghost var r1 := Do(Redis(Keys(), Staging()), DropBoard(b));
      z, h := z - {b}, h - {b};
      assert Redis(Keys(), Staging()) == r1;
      ghost var r2 := Do(r1, RenameZ(b));
      if Staging().Z(b) != {} { z, stagedZ := z[b := stagedZ[b]], stagedZ - {b}; }
      assert Redis(Keys(), Staging()) == r2;
      ghost var r3 := Do(r2, RenameH(b));
      if Staging().H(b) != map[] { h, stagedH := h[b := stagedH[b]], stagedH - {b}; }
      assert Redis(Keys(), Staging()) == r3;
      counts := counts[b := |Keys().Z(b)|];
    }

    /** readProjection with the reply built by its loop. */
    method Read(epoch: nat, version: nat, b: Bytes, q: Query, max: nat) returns (reply: Option<Raw>)
      ensures reply == ReadScript(Keys(), epoch, version, b, q, max)
    {
      hide Sort, Encode;
      if this.epoch != Some(epoch) || this.version != Some(version) || !Keys().FullSize(b) { return None; }
      var sorted, members := Sort(Keys().Z(b)), Keys().H(b);
      match q {
        case Leaderboard(offset, limit) =>
          var values := Collect(sorted, offset, offset + (if limit == 0 then max + 1 else limit) - 1);
          reply := Some(Raw(|sorted|, -1, [], offset, values));
        case LeaderboardCount =>
          reply := Some(Raw(|sorted|, -1, [], 0, []));
        case Rank(entity) =>
          reply := Find(sorted, members, entity, 0, false);
        case Around(entity, radius) =>
          reply := Find(sorted, members, entity, radius, true);
      }
    }

    static method Find(sorted: seq<Bytes>, members: map<Bytes, Bytes>, entity: Bytes, radius: nat, collect: bool)
      returns (reply: Option<Raw>)
      ensures reply == ReadAround(sorted, members, entity, radius, collect)
    {
      var member := if entity in members then members[entity] else [];
      if member == [] { return Some(Raw(|sorted|, -1, [], 0, [])); }
      var found := IndexOf(sorted, member);
      if found.None? { return None; }
      var rank := found.value;
      var start := if rank - radius < 0 then 0 else rank - radius;
      var values := [];
      if collect { values := Collect(sorted, start, rank + radius); }
      reply := Some(Raw(|sorted|, rank, member, start, values));
    }

    /** One ZRANGE per position until `stop` or the end of the sorted set. */
    static method Collect(sorted: seq<Bytes>, start: nat, stop: int) returns (values: seq<Bytes>)
      ensures values == Between(sorted, start, stop)
    {
      values := [];
      var i := start;
      while i <= stop && i < |sorted|
        invariant start <= i
        invariant values == Between(sorted, start, i - 1)
        invariant i > start ==> i <= |sorted| && i - 1 <= stop
      {
        values := values + [sorted[i]];
        i := i + 1;
      }
    }
  }

  lemma ExecHead(r: Redis, cmd: Command, rest: seq<Command>)
    ensures Exec(r, [cmd] + rest) == Exec(Do(r, cmd), rest)
  {
    assert ([cmd] + rest)[1..] == rest;
  }

  lemma ExecLast(r: Redis, cmd: Command)
    ensures Exec(r, [cmd]) == Do(r, cmd)
  {}

  lemma FourCommands(r: Redis, b: Bytes, rest: seq<Bytes>, tail: seq<Command>)
    ensures Exec(r, Moves([b] + rest) + tail)
            == Exec(Do(Do(Do(Do(r, DropBoard(b)), RenameZ(b)), RenameH(b)), SetCount(b)), Moves(rest) + tail)
  {
    var first := [DropBoard(b), RenameZ(b), RenameH(b), SetCount(b)];
    assert ([b] + rest)[1..] == rest;
    assert Moves([b] + rest) + tail == first + (Moves(rest) + tail);
    ExecAppend(r, first, Moves(rest) + tail);
    ExecFour(r, b);
  }
}
