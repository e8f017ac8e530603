/** Leaderboard reads of internal/analytics/ranking.go: the SQL answer over a board's durable scores
    and the answer decoded from one Redis sorted set and its entity hash. */
module Ranking {
  import opened Options
  import opened ByteStrings
  import opened MemberCodec
  import opened Sequences

  type Board = map<Bytes, Score>

  datatype Row = Row(entity: Bytes, value: Score)
  datatype Ranked = Ranked(entity: Bytes, value: Score, rank: nat)

  datatype Query =
    | Leaderboard(offset: nat, limit: nat)
    | LeaderboardCount
    | Rank(entity: Bytes)
    | Around(entity: Bytes, radius: nat)

  datatype Answer =
    | Page(rows: seq<Row>)
    | Position(count: nat, rank: Option<nat>, score: Option<Score>, around: Option<seq<Ranked>>)
    | TooManyRows
    | CorruptMember

  // ---- The SQL side: ORDER BY scoreOrder over the board's rows ----

  /** What `SELECT ... ORDER BY scoreOrder` returns: every row once, in leaderboard order. */
  ghost predicate Listing(b: Board, rows: seq<Row>) {
    && (forall i, j :: 0 <= i < j < |rows| ==>
          Before(rows[i].value, rows[i].entity, rows[j].value, rows[j].entity))
    && (forall i :: 0 <= i < |rows| ==> rows[i].entity in b && b[rows[i].entity] == rows[i].value)
    && (forall e :: e in b ==> Row(e, b[e]) in rows)
  }

  function Numbered(rows: seq<Row>, first: nat): (r: seq<Ranked>)
    ensures |r| == |rows|
  {
    seq(|rows|, i requires 0 <= i < |rows| => Ranked(rows[i].entity, rows[i].value, first + i + 1))
  }

  /** `count(*)+1` over the rows that come before the entity. */
  ghost function SqlRank(b: Board, entity: Bytes): nat
    requires entity in b
  {
    |set e | e in b && Before(b[e], e, b[entity], entity)| + 1
  }

  /** sqlBoard on a listing of the board; `max` is the configured result limit. */
  ghost function SqlAnswer(b: Board, rows: seq<Row>, q: Query, max: nat): Answer {
    match q
    case Leaderboard(offset, limit) =>
      var page := Slice(rows, offset, if limit == 0 then max + 1 else limit);
      if |page| > max then TooManyRows else Page(page)
    case LeaderboardCount => Position(|b|, None, None, None)
    case Rank(entity) =>
      if entity !in b then Position(|b|, None, None, None)
      else Position(|b|, Some(SqlRank(b, entity)), Some(b[entity]), None)
    case Around(entity, radius) =>
      if entity !in b then Position(|b|, None, None, Some([]))
      else
        var rank := SqlRank(b, entity);
        var offset := if rank - 1 - radius < 0 then 0 else rank - 1 - radius;
        var limit := rank - 1 + radius - offset + 1;
        Position(|b|, Some(rank), Some(b[entity]), Some(Numbered(Slice(rows, offset, limit), offset)))
  }

  // ---- The Redis side: a sorted set with zero scores and an entity-to-member hash ----

  function Members(b: Board): set<Bytes> { set e | e in b :: Encode(b[e], e) }

  function MemberMap(b: Board): map<Bytes, Bytes> { map e | e in b :: Encode(b[e], e) }

  datatype Raw = Raw(size: nat, rank: int, member: Bytes, start: int, values: seq<Bytes>)

  /** ZRANK: the position of the first occurrence. */
  function IndexOf(s: seq<Bytes>, x: Bytes): (r: Option<nat>)
    ensures r.Some? ==> r.value < |s| && s[r.value] == x
    ensures r.None? ==> x !in s
  {
    if s == [] then None
    else if s[0] == x then Some(0)
    else
      var r := IndexOf(s[1..], x);
      if r.None? then None else Some(r.value + 1)
  }

  /** Members `start` to `stop` inclusive, clipped to the sorted set. */
  function Between(s: seq<Bytes>, start: nat, stop: int): seq<Bytes> {
    if stop < start || start >= |s| then [] else if stop >= |s| then s[start..] else s[start..stop + 1]
  }

  /** The read script after its metadata and size checks. */
  function ReadMembers(z: set<Bytes>, h: map<Bytes, Bytes>, q: Query, max: nat): Option<Raw> {
    var sorted := Sort(z);
    match q
    case Leaderboard(offset, limit) =>
      var stop := offset + (if limit == 0 then max + 1 else limit) - 1;
      Some(Raw(|sorted|, -1, [], offset, Between(sorted, offset, stop)))
    case LeaderboardCount => Some(Raw(|sorted|, -1, [], 0, []))
    case Rank(entity) => ReadAround(sorted, h, entity, 0, false)
    case Around(entity, radius) => ReadAround(sorted, h, entity, radius, true)
  }

  function ReadAround(sorted: seq<Bytes>, h: map<Bytes, Bytes>, entity: Bytes, radius: nat,
                      collect: bool): Option<Raw>
  {
    if entity !in h || h[entity] == [] then Some(Raw(|sorted|, -1, [], 0, []))
    else
      var found := IndexOf(sorted, h[entity]);
      if found.None? then None
      else
        var rank := found.value;
        var start := if rank < radius then 0 else rank - radius;
        Some(Raw(|sorted|, rank, h[entity], start, if collect then Between(sorted, start, rank + radius) else []))
  }

  function DecodeRow(member: Bytes): Option<Row> {
    match Decode(member)
    case Member(value, entity) => Some(Row(entity, value.Canonical()))
    case Corrupt(_) => None
  }

  function DecodeRows(members: seq<Bytes>): Option<seq<Row>> {
    if members == [] then Some([])
    else
      var row, rest := DecodeRow(members[0]), DecodeRows(members[1..]);
      if row.None? || rest.None? then None else Some([row.value] + rest.value)
  }

  /** cachedBoard's decoding of the script's reply. */
  function CachedAnswer(raw: Raw, q: Query, max: nat): Answer {
    match q
    case Leaderboard(_, _) =>
      if |raw.values| > max then TooManyRows
      else
        var rows := DecodeRows(raw.values);
        if rows.None? then CorruptMember else Page(rows.value)
    case LeaderboardCount => Position(raw.size, None, None, None)
    case Rank(_) =>
      if raw.rank < 0 then Position(raw.size, None, None, None)
      else
        var row := DecodeRow(raw.member);
        if row.None? then CorruptMember
        else Position(raw.size, Some(raw.rank + 1), Some(row.value.value), None)
    case Around(_, _) =>
      if raw.rank < 0 then Position(raw.size, None, None, Some([]))
      else
        var row := DecodeRow(raw.member);
        if row.None? then CorruptMember
        else
          var rows := DecodeRows(raw.values);
          if rows.None? || raw.start < 0 then CorruptMember
          else Position(raw.size, Some(raw.rank + 1), Some(row.value.value), Some(Numbered(rows.value, raw.start)))
  }

  // ---- The two sides agree ----

  function EncodeRows(rows: seq<Row>): (r: seq<Bytes>)
    ensures |r| == |rows|
  {
    seq(|rows|, i requires 0 <= i < |rows| => Encode(rows[i].value, rows[i].entity))
  }

  /** Setting one entity's score adds one member and removes only that entity's former one. */
  lemma MembersPut(b: Board, e: Bytes, v: Score)
    ensures Members(b[e := v]) == Members(b - {e}) + {Encode(v, e)}
    ensures MemberMap(b[e := v]) == MemberMap(b)[e := Encode(v, e)]
    ensures Encode(v, e) !in Members(b - {e})
  {
    hide Encode;
    var put, rest := b[e := v], b - {e};
    forall m | m in Members(put) ensures m in Members(rest) + {Encode(v, e)} {
      var f :| f in put && m == Encode(put[f], f);
      if f != e { assert f in rest && rest[f] == put[f]; }
    }
    forall m | m in Members(rest) + {Encode(v, e)} ensures m in Members(put) {
      if m != Encode(v, e) {
        var f :| f in rest && m == Encode(rest[f], f);
        assert f in put && put[f] == rest[f];
      } else {
        assert e in put && put[e] == v;
      }
    }
    if Encode(v, e) in Members(rest) {
      var f :| f in rest && Encode(v, e) == Encode(rest[f], f);
      EncodeInjective(v, e, rest[f], f);
    }
  }

  lemma {:induction false} MembersSize(b: Board)
    ensures |Members(b)| == |b| && |MemberMap(b)| == |b|
  {
    MemberMapSize(b);
    if b != map[] {
      var e :| e in b;
      MembersSize(b - {e});
      MembersSizeStep(b, e);
    }
  }

  lemma MemberMapSize(b: Board)
    ensures |MemberMap(b)| == |b|
  {
    hide Encode;
    assert MemberMap(b).Keys == b.Keys;
  }

  lemma MembersSizeStep(b: Board, e: Bytes)
    requires e in b && |Members(b - {e})| == |b - {e}|
    ensures |Members(b)| == |b|
  {
    hide Encode, Members, MemberMap;
    MembersPut(b, e, b[e]);
    assert b[e := b[e]] == b;
    assert b.Keys == (b - {e}).Keys + {e};
  }

  /** Ordering the members by bytes lists the board exactly as SQL does. */
  lemma ListingEncodes(b: Board, rows: seq<Row>)
    requires Listing(b, rows)
    ensures EncodeRows(rows) == Sort(Members(b)) && |rows| == |b|
  {
    var encoded := EncodeRows(rows);
    forall i, j | 0 <= i < j < |rows| ensures Less(encoded[i], encoded[j]) {
      EncodeOrder(rows[i].value, rows[i].entity, rows[j].value, rows[j].entity);
    }
    forall m ensures m in encoded <==> m in Members(b) {
      if m in encoded {
        var i :| 0 <= i < |encoded| && encoded[i] == m;
        assert rows[i].entity in b;
      }
      if m in Members(b) {
        var e :| e in b && m == Encode(b[e], e);
        var i :| 0 <= i < |rows| && rows[i] == Row(e, b[e]);
        assert encoded[i] == m;
      }
    }
    forall i, j | 0 <= i < j < |encoded| ensures encoded[i] != encoded[j] { LessTotal(encoded[i], encoded[j]); }
    DistinctSize(encoded);
    assert (set x | x in encoded) == Members(b);
    SortCorrect(Members(b));
    MembersSize(b);
    AscendingUnique(encoded, Sort(Members(b)));
  }

  /** Every board has a listing. */
  lemma ListingExists(b: Board) returns (rows: seq<Row>)
    ensures Listing(b, rows)
  {
    hide Encode, Before;
    var sorted := Sort(Members(b));
    SortCorrect(Members(b));
    rows := seq(|sorted|, i requires 0 <= i < |sorted| => assert sorted[i] in sorted; RowFor(b, sorted[i]));
    forall i, j | 0 <= i < j < |rows| ensures Before(rows[i].value, rows[i].entity, rows[j].value, rows[j].entity) {
      assert sorted[i] in sorted && sorted[j] in sorted;
      EncodeOrder(rows[i].value, rows[i].entity, rows[j].value, rows[j].entity);
    }
    forall i | 0 <= i < |rows| ensures rows[i].entity in b && b[rows[i].entity] == rows[i].value {
      assert sorted[i] in sorted;
    }
    forall e | e in b ensures Row(e, b[e]) in rows {
      var m := Encode(b[e], e);
      assert m in Members(b) && m in sorted;
      var i :| 0 <= i < |sorted| && sorted[i] == m;
      EncodeInjective(rows[i].value, rows[i].entity, b[e], e);
      assert rows[i] == Row(e, b[e]);
    }
  }

  ghost function RowFor(b: Board, m: Bytes): (row: Row)
    requires m in Members(b)
    ensures row.entity in b && row.value == b[row.entity] && Encode(row.value, row.entity) == m
  {
    var e :| e in b && m == Encode(b[e], e);
    Row(e, b[e])
  }

  lemma RowDecodes(row: Row)
    ensures DecodeRow(Encode(row.value, row.entity)) == Some(row)
  {
    EncodeRoundTrip(row.value, row.entity);
  }

  lemma {:induction false} RowsDecode(rows: seq<Row>)
    ensures DecodeRows(EncodeRows(rows)) == Some(rows)
  {
    if rows != [] {
      RowDecodes(rows[0]);
      assert EncodeRows(rows)[1..] == EncodeRows(rows[1..]);
      RowsDecode(rows[1..]);
      assert rows == [rows[0]] + rows[1..];
    }
  }

  lemma BeforeAsymmetric(v: Float, e: Bytes, w: Float, f: Bytes)
    ensures !(Before(v, e, w, f) && Before(w, f, v, e))
  {
    LessTotal(e, f);
  }

  function Entities(rows: seq<Row>): (r: seq<Bytes>)
    ensures |r| == |rows| && forall i :: 0 <= i < |r| ==> r[i] == rows[i].entity
  {
    seq(|rows|, i requires 0 <= i < |rows| => rows[i].entity)
  }

  /** SQL's `count(*)+1` of better rows is the row's position in the listing. */
  lemma SqlRankIsPosition(b: Board, rows: seq<Row>, k: nat)
    requires Listing(b, rows) && k < |rows|
    ensures SqlRank(b, rows[k].entity) == k + 1
  {
    hide Before;
    var better := set e | e in b && Before(b[e], e, rows[k].value, rows[k].entity);
    var prefix := Entities(rows)[..k];
    forall i, j | 0 <= i < j < k ensures prefix[i] != prefix[j] {
      BeforeAsymmetric(rows[i].value, rows[i].entity, rows[j].value, rows[j].entity);
    }
    DistinctSize(prefix);
    forall e | e in prefix ensures e in better {
      var i :| 0 <= i < k && prefix[i] == e;
    }
    forall e | e in better ensures e in prefix {
      var i :| 0 <= i < |rows| && rows[i] == Row(e, b[e]);
      BeforeAsymmetric(rows[k].value, rows[k].entity, b[e], e);
      assert i < k;
      assert prefix[i] == e;
    }
    assert better == set e | e in prefix;
  }

  // ---- What the answers mean ----

  /** A numbered page gives every entity the rank that counting gives it. */
  lemma NumberedRank(b: Board, rows: seq<Row>, offset: nat, limit: nat, i: nat)
    requires Listing(b, rows) && i < |Slice(rows, offset, limit)|
    ensures var r := Numbered(Slice(rows, offset, limit), offset)[i];
            r.entity in b && r.value == b[r.entity] && r.rank == SqlRank(b, r.entity) == offset + i + 1
  {
    hide Before, SqlRank, Slice;
    SliceAt(rows, offset, limit);
    SqlRankIsPosition(b, rows, offset + i);
  }

  /** AROUND lists exactly the entities whose rank is within the radius of the entity's, by ascending rank. */
  lemma AroundIsWindow(b: Board, rows: seq<Row>, entity: Bytes, radius: nat, max: nat)
    requires Listing(b, rows) && entity in b
    ensures var a := SqlAnswer(b, rows, Around(entity, radius), max);
            && a.Position? && a.rank == Some(SqlRank(b, entity)) && a.score == Some(b[entity]) && a.around.Some?
            && (forall i :: 0 <= i < |a.around.value| ==>
                  var r := a.around.value[i]; r.entity in b && r.value == b[r.entity] && r.rank == SqlRank(b, r.entity))
            && (forall i, j :: 0 <= i < j < |a.around.value| ==> a.around.value[i].rank < a.around.value[j].rank)
            && (forall e :: e in b && SqlRank(b, entity) - radius <= SqlRank(b, e) <= SqlRank(b, entity) + radius ==>
                  exists i :: 0 <= i < |a.around.value| && a.around.value[i].entity == e)
            && (forall i :: 0 <= i < |a.around.value| ==>
                  SqlRank(b, entity) - radius <= a.around.value[i].rank <= SqlRank(b, entity) + radius)
  {
    hide Before, SqlRank, Slice, Listing;
    var k := RowOf(b, rows, entity);
    var offset, limit := WindowStart(k, radius), k + radius - WindowStart(k, radius) + 1;
    SliceAt(rows, offset, limit);
    var around := Numbered(Slice(rows, offset, limit), offset);
    assert SqlAnswer(b, rows, Around(entity, radius), max).around == Some(around);
    forall i | 0 <= i < |around| ensures around[i].entity in b && around[i].value == b[around[i].entity]
                                         && around[i].rank == SqlRank(b, around[i].entity) == offset + i + 1 {
      NumberedRank(b, rows, offset, limit, i);
    }
    forall e | e in b && SqlRank(b, entity) - radius <= SqlRank(b, e) <= SqlRank(b, entity) + radius
      ensures exists i :: 0 <= i < |around| && around[i].entity == e
    {
      var p := RowOf(b, rows, e);
      assert around[p - offset].entity == e;
    }
  }

  lemma RowOf(b: Board, rows: seq<Row>, entity: Bytes) returns (k: nat)
    requires Listing(b, rows) && entity in b
    ensures k < |rows| && rows[k] == Row(entity, b[entity]) && SqlRank(b, entity) == k + 1
  {
    hide Before, SqlRank;
    k :| 0 <= k < |rows| && rows[k] == Row(entity, b[entity]);
    SqlRankIsPosition(b, rows, k);
  }

  lemma BetweenIsSlice(rows: seq<Row>, start: nat, stop: int, limit: nat)
    requires stop == start + limit - 1
    ensures Between(EncodeRows(rows), start, stop) == EncodeRows(Slice(rows, start, limit))
  {}

  lemma {:induction false} IndexOfAscending(s: seq<Bytes>, k: nat)
    requires Ascending(s) && k < |s|
    ensures IndexOf(s, s[k]) == Some(k)
  {
    var r := IndexOf(s, s[k]);
    assert s[k] in s;
    LessTotal(s[r.value], s[k]);
  }

  function WindowStart(k: nat, radius: nat): nat { if k < radius then 0 else k - radius }

  lemma ReadAroundFinds(b: Board, rows: seq<Row>, k: nat, radius: nat, collect: bool)
    requires k < |rows| && rows[k].entity in b && b[rows[k].entity] == rows[k].value
    requires Ascending(EncodeRows(rows))
    ensures var start := WindowStart(k, radius);
            ReadAround(EncodeRows(rows), MemberMap(b), rows[k].entity, radius, collect)
            == Some(Raw(|rows|, k, Encode(rows[k].value, rows[k].entity), start,
                        if collect then EncodeRows(Slice(rows, start, k + radius - start + 1)) else []))
  {
    hide Encode, IndexOf, Between, Slice, Ascending;
    IndexOfAscending(EncodeRows(rows), k);
    assert MemberMap(b)[rows[k].entity] == EncodeRows(rows)[k];
    var start := WindowStart(k, radius);
    BetweenIsSlice(rows, start, k + radius, k + radius - start + 1);
  }

  lemma PageAnswersLikeSql(b: Board, rows: seq<Row>, offset: nat, limit: nat, max: nat)
    requires EncodeRows(rows) == Sort(Members(b))
    ensures var q := Leaderboard(offset, limit);
            var raw := ReadMembers(Members(b), MemberMap(b), q, max);
            raw.Some? && CachedAnswer(raw.value, q, max) == SqlAnswer(b, rows, q, max)
  {
    hide Encode, Decode;
    var n := if limit == 0 then max + 1 else limit;
    BetweenIsSlice(rows, offset, offset + n - 1, n);
    RowsDecode(Slice(rows, offset, n));
  }

  lemma RankAnswersLikeSql(b: Board, rows: seq<Row>, k: nat, max: nat)
    requires Listing(b, rows) && k < |rows| && |rows| == |b|
    requires EncodeRows(rows) == Sort(Members(b)) && Ascending(Sort(Members(b)))
    ensures var q := Rank(rows[k].entity);
            var raw := ReadMembers(Members(b), MemberMap(b), q, max);
            raw.Some? && CachedAnswer(raw.value, q, max) == SqlAnswer(b, rows, q, max)
  {
    hide Encode, Decode, DecodeRow, DecodeRows, ReadAround, Slice, SqlRank, Ascending, Before, Members, MemberMap;
    ReadAroundFinds(b, rows, k, 0, false);
    SqlRankIsPosition(b, rows, k);
    RowDecodes(rows[k]);
  }

  lemma AroundAnswersLikeSql(b: Board, rows: seq<Row>, k: nat, radius: nat, max: nat)
    requires Listing(b, rows) && k < |rows| && |rows| == |b|
    requires EncodeRows(rows) == Sort(Members(b)) && Ascending(Sort(Members(b)))
    ensures var q := Around(rows[k].entity, radius);
            var raw := ReadMembers(Members(b), MemberMap(b), q, max);
            raw.Some? && CachedAnswer(raw.value, q, max) == SqlAnswer(b, rows, q, max)
  {
    hide Encode, Decode, DecodeRow, DecodeRows, ReadAround, Slice, SqlRank, Ascending, Before, Members, MemberMap;
    ReadAroundFinds(b, rows, k, radius, true);
    SqlRankIsPosition(b, rows, k);
    RowDecodes(rows[k]);
    var start := WindowStart(k, radius);
    RowsDecode(Slice(rows, start, k + radius - start + 1));
  }

  /** A complete sorted set and hash answer every query exactly as SQL does. */
  lemma CompleteBoardAnswersLikeSql(b: Board, rows: seq<Row>, q: Query, max: nat)
    requires Listing(b, rows)
    ensures ReadMembers(Members(b), MemberMap(b), q, max).Some?
    ensures CachedAnswer(ReadMembers(Members(b), MemberMap(b), q, max).value, q, max) == SqlAnswer(b, rows, q, max)
  {
    hide Encode, Decode, Before;
    ListingEncodes(b, rows);
    SortCorrect(Members(b));
    if q.Leaderboard? {
      PageAnswersLikeSql(b, rows, q.offset, q.limit, max);
    } else if !q.LeaderboardCount? && q.entity in b {
      var k :| 0 <= k < |rows| && rows[k] == Row(q.entity, b[q.entity]);
      if q.Rank? {
        RankAnswersLikeSql(b, rows, k, max);
      } else {
        AroundAnswersLikeSql(b, rows, k, q.radius, max);
      }
    }
  }
}
