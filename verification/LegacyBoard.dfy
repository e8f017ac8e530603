/** Sorted leaderboard rows of the Pebble store (internal/aggregates/leaderboard.go): keys with inverted
    score bits, and the two-pass scan that lists a board. */
module LegacyBoard {
  import opened ByteStrings
  import opened MemberCodec
  import opened Ranking
  import opened Keyspace
  import opened Sequences

  const LB: Bytes := [108, 98, COLON]   // "lb:"

  datatype Value = ScoreRow(row: Row) | Other

  type Store = seq<KV<Value>>

  function Board(metric: Bytes): Bytes { LB + Component(metric) }

  /** `math.MaxUint64 - math.Float64bits(value)`, big-endian. */
  function Inverted(value: Score): (b: Bytes)
    ensures |b| == 8
  {
    BigEndian(Not(value.Bits()), 8)
  }

  function RowKey(metric: Bytes, row: Row): Bytes {
    Board(metric) + [COLON] + (Inverted(row.value) + ([COLON] + row.entity))
  }

  /** The store's rows of this metric are exactly the board's scores. */
  ghost predicate Represents(db: Store, metric: Bytes, board: Ranking.Board) {
    && Ordered(db)
    && (forall e :: e in board ==> KV(RowKey(metric, Row(e, board[e])), ScoreRow(Row(e, board[e]))) in db)
    && (forall kv :: kv in db && InRange(kv.key, Board(metric) + [COLON], Board(metric) + [COLON + 1]) ==>
          kv.value.ScoreRow? && kv.value.row.entity in board && board[kv.value.row.entity] == kv.value.row.value
          && kv.key == RowKey(metric, kv.value.row))
  }

  /** Nonnegative scores in key order. */
  function Forward(db: Store, metric: Bytes): Store {
    Range(db, Board(metric) + [COLON] + [0x80], Board(metric) + [COLON + 1])
  }

  /** Negative scores; the scan walks them from the last key back. */
  function Backward(db: Store, metric: Bytes): Store {
    Range(db, Board(metric) + [COLON], Board(metric) + [COLON] + [0x80])
  }

  /** Everything the scan visits, in its order. */
  function Visited(db: Store, metric: Bytes): Store { Forward(db, metric) + Reverse(Backward(db, metric)) }

  function RowsOf(rows: Store): (r: seq<Row>)
    requires forall kv :: kv in rows ==> kv.value.ScoreRow?
    ensures |r| == |rows|
  {
    seq(|rows|, i requires 0 <= i < |rows| => assert rows[i] in rows; rows[i].value.row)
  }

  // ---- The scan ----

  datatype Result = Entries(rows: seq<Row>) | BadRow | BadPage

  /** A scan under way, complete, or stopped by a row that does not decode. */
  datatype Progress = Going(page: seq<Row>, skip: nat) | Full(page: seq<Row>) | Stopped

  /** One row: skip it while an offset remains, else collect it. */
  function Step(p: Progress, kv: KV<Value>, limit: nat): Progress
    requires p.Going?
  {
    if kv.value.Other? then Stopped
    else if p.skip > 0 then Going(p.page, p.skip - 1)
    else
      var page := p.page + [kv.value.row];
      if limit > 0 && |page| >= limit then Full(page) else Going(page, 0)
  }

  function Scan(p: Progress, rows: Store, limit: nat): Progress
    decreases |rows|
  {
    if rows == [] || !p.Going? then p else Scan(Step(p, rows[0], limit), rows[1..], limit)
  }

  lemma {:induction false} ScanBoth(p: Progress, a: Store, b: Store, limit: nat)
    ensures Scan(p, a + b, limit) == Scan(Scan(p, a, limit), b, limit)
    decreases |a|
  {
    if a == [] {
      assert a + b == b;
    } else if p.Going? {
      assert (a + b)[1..] == a[1..] + b;
      ScanBoth(Step(p, a[0], limit), a[1..], b, limit);
    }
  }

  /** How many rows the scan has to read. */
  function Needed(rows: Store, limit: nat, offset: nat): nat {
    if limit == 0 || offset + limit >= |rows| then |rows| else offset + limit
  }

  predicate Readable(rows: Store) { forall kv :: kv in rows ==> kv.value.ScoreRow? }

  function Drop(rows: seq<Row>, n: nat): seq<Row> { if n >= |rows| then [] else rows[n..] }

  /** Rows beyond the page are not read, so they need not decode. */
  function PageOf(rows: Store, limit: nat, offset: nat): Result {
    var read := rows[..Needed(rows, limit, offset)];
    if Readable(read) then Entries(Drop(RowsOf(read), offset)) else BadRow
  }

  function Answer(p: Progress): Result { if p.Stopped? then BadRow else Entries(p.page) }

  /** A scan that is about to read `rows`, and one that has read the first of them. */
  lemma PageNext(page: seq<Row>, rows: Store, limit: nat, skip: nat)
    requires rows != [] && rows[0].value.ScoreRow? && (limit > 0 ==> |page| < limit)
    ensures var rest, more := rows[1..], if limit == 0 then 0 else limit - |page|;
            var r := PageOf(rows, more, skip);
            if skip > 0 then r == PageOf(rest, more, skip - 1)
            else if limit > 0 && more == 1 then r == Entries([rows[0].value.row])
            else
              var tail := PageOf(rest, if limit == 0 then 0 else more - 1, 0);
              r == if tail.Entries? then Entries([rows[0].value.row] + tail.rows) else tail
  {
    var rest, more := rows[1..], if limit == 0 then 0 else limit - |page|;
    var n := Needed(rows, more, skip);
    var read := rows[..n];
    assert read == [rows[0]] + rest[..n - 1];
    if Readable(rest[..n - 1]) {
      assert RowsOf(read) == [rows[0].value.row] + RowsOf(rest[..n - 1]);
    }
    assert Readable(read) <==> Readable(rest[..n - 1]);
  }

  /** The scan answers with its page, or with an error if one of the rows it reads does not decode. */
  lemma {:induction false} ScanIsPage(page: seq<Row>, rows: Store, limit: nat, skip: nat)
    requires (limit > 0 ==> |page| < limit) && (skip > 0 ==> page == [])
    ensures var r := PageOf(rows, if limit == 0 then 0 else limit - |page|, skip);
            Answer(Scan(Going(page, skip), rows, limit)) == if r.Entries? then Entries(page + r.rows) else r
    decreases |rows|
  {
    hide PageOf;
    if rows == [] {
      EmptyPage(if limit == 0 then 0 else limit - |page|, skip);
    } else if rows[0].value.Other? {
      BadFirst(rows, if limit == 0 then 0 else limit - |page|, skip);
    } else {
      PageNext(page, rows, limit, skip);
      var more := page + [rows[0].value.row];
      if skip > 0 {
        ScanIsPage(page, rows[1..], limit, skip - 1);
      } else if limit == 0 || |more| < limit {
        ScanIsPage(more, rows[1..], limit, 0);
        var tail := PageOf(rows[1..], if limit == 0 then 0 else limit - |more|, 0);
        if tail.Entries? { assert more + tail.rows == page + ([rows[0].value.row] + tail.rows); }
      }
    }
  }

  lemma EmptyPage(limit: nat, offset: nat)
    ensures PageOf([], limit, offset) == Entries([])
  {}

  lemma BadFirst(rows: Store, limit: nat, offset: nat)
    requires rows != [] && rows[0].value.Other?
    ensures PageOf(rows, limit, offset) == BadRow
  {
    var read := rows[..Needed(rows, limit, offset)];
    assert read[0] == rows[0] && read[0] in read;
  }

  /** One pass over the rows of one sign. */
  method Pass(p: Progress, rows: Store, limit: nat) returns (r: Progress)
    requires p.Going?
    ensures r == Scan(p, rows, limit)
  {
    r := p;
    var i := 0;
    assert rows[0..] == rows;
    while i < |rows|
      invariant 0 <= i <= |rows| && r.Going? && Scan(p, rows, limit) == Scan(r, rows[i..], limit)
    {
      assert rows[i..][1..] == rows[i + 1..];
      r := Step(r, rows[i], limit);
      if !r.Going? { return; }
      i := i + 1;
    }
  }

  /** TopN on any store: nonnegative scores forward, then negative scores backward, one offset and limit for both. */
  method TopN(db: Store, metric: Bytes, limit: int, offset: int) returns (r: Result)
    ensures r == if limit < 0 || offset < 0 then BadPage else PageOf(Visited(db, metric), limit, offset)
  {
    if limit < 0 || offset < 0 { return BadPage; }
    var forward, backward := Forward(db, metric), Reverse(Backward(db, metric));
    hide Forward, Backward, Reverse, PageOf, Scan;
    ScanBoth(Going([], offset), forward, backward, limit);
    ScanIsPage([], forward + backward, limit, offset);
    var p := Pass(Going([], offset), forward, limit);
    if p.Going? { p := Pass(p, backward, limit); } else { Settled(p, backward, limit); }
    ghost var page := PageOf(forward + backward, limit, offset);
    assert page.Entries? ==> [] + page.rows == page.rows;
    r := Answer(p);
  }

  lemma Settled(p: Progress, rows: Store, limit: nat)
    requires !p.Going?
    ensures Scan(p, rows, limit) == p
  {}

  /** On a board whose rows all decode the page is a slice of what the scan visits. */
  lemma PageIsSlice(rows: Store, limit: nat, offset: nat)
    requires Readable(rows)
    ensures PageOf(rows, limit, offset) == Entries(Slice(RowsOf(rows), offset, if limit == 0 then |rows| else limit))
  {
    var n := Needed(rows, limit, offset);
    var read := rows[..n];
    assert forall kv :: kv in read ==> kv in rows;
    assert RowsOf(read) == RowsOf(rows)[..n];
  }

  // ---- The keys put rows in leaderboard order ----

  function Zeros(n: nat): (b: Bytes)
    ensures |b| == n
  {
    if n == 0 then [] else Zeros(n - 1) + [0]
  }

  lemma {:induction false} NothingBelowZeros(b: Bytes, n: nat)
    requires |b| == n
    ensures !Less(b, Zeros(n))
  {
    if n > 0 {
      assert b == b[..n - 1] + [b[n - 1]];
      NothingBelowZeros(b[..n - 1], n - 1);
      LessByHead(b[..n - 1], [b[n - 1]], Zeros(n - 1), [0]);
    }
  }

  lemma {:induction false} TopWord(n: nat)
    ensures BigEndian(128 * Pow256(n), n + 1) == [128] + Zeros(n)
  {
    if n > 0 {
      assert (128 * Pow256(n)) / 256 == 128 * Pow256(n - 1) && (128 * Pow256(n)) % 256 == 0;
      TopWord(n - 1);
    } else {
      assert BigEndian(0, 0) == [];
      assert BigEndian(128, 1) == [128];
    }
  }

  /** The first inverted byte tells the sign, so the split key is the sign boundary. */
  lemma InvertedTop(v: Score)
    ensures Inverted(v)[0] >= 0x80 <==> !v.BelowZero()
  {
    WordIsPow256();
    assert 128 * Pow256(7) == TOP by { assert 256 * Pow256(7) == Pow256(8); }
    TopWord(7);
    BigEndianOrder(Not(v.Bits()), TOP, 8);
    var b := Inverted(v);
    assert b == [b[0]] + b[1..];
    NothingBelowZeros(b[1..], 7);
    LessByHead([b[0]], b[1..], [128], Zeros(7));
    assert Less([b[0]], [128]) <==> b[0] < 128;
  }

  lemma InvertedOrder(v: Score, w: Score)
    ensures Less(Inverted(v), Inverted(w)) <==> v.Bits() > w.Bits()
    ensures Inverted(v) == Inverted(w) <==> v == w
  {
    WordIsPow256();
    BigEndianOrder(Not(v.Bits()), Not(w.Bits()), 8);
    BigEndianRoundTrip(Not(v.Bits()), 8);
    BigEndianRoundTrip(Not(w.Bits()), 8);
  }

  /** Of two rows of one board the smaller key has the larger bit pattern, then the smaller entity. */
  lemma RowKeyOrder(metric: Bytes, r: Row, s: Row)
    ensures Less(RowKey(metric, r), RowKey(metric, s))
            <==> r.value.Bits() > s.value.Bits() || (r.value == s.value && Less(r.entity, s.entity))
  {
    hide Less, Inverted;
    var p := Board(metric) + [COLON];
    LessByHead(p, Inverted(r.value) + ([COLON] + r.entity), p, Inverted(s.value) + ([COLON] + s.entity));
    LessTotal(p, p);
    LessByHead(Inverted(r.value), [COLON] + r.entity, Inverted(s.value), [COLON] + s.entity);
    LessByHead([COLON], r.entity, [COLON], s.entity);
    LessTotal([COLON], [COLON]);
    InvertedOrder(r.value, s.value);
  }

  /** The split key separates the passes. */
  lemma RowKeySplit(metric: Bytes, r: Row)
    ensures InRange(RowKey(metric, r), Board(metric) + [COLON], Board(metric) + [COLON + 1])
    ensures Less(RowKey(metric, r), Board(metric) + [COLON] + [0x80]) <==> r.value.BelowZero()
  {
    var p, tail := Board(metric) + [COLON], Inverted(r.value) + ([COLON] + r.entity);
    DelimitedRange(RowKey(metric, r), Board(metric));
    assert RowKey(metric, r)[..|Board(metric)| + 1] == p;
    LessByHead(p, tail, p, [0x80]);
    LessTotal(p, p);
    InvertedTop(r.value);
    assert Less(tail, [0x80]) <==> tail[0] < 0x80;
  }

  lemma ScanBounds(metric: Bytes, key: Bytes)
    ensures var p, q := Board(metric) + [COLON], Board(metric) + [COLON + 1];
            && (InRange(key, p + [0x80], q) <==> InRange(key, p, q) && !Less(key, p + [0x80]))
            && (InRange(key, p, p + [0x80]) <==> InRange(key, p, q) && Less(key, p + [0x80]))
  {
    hide Less;
    var p, q := Board(metric) + [COLON], Board(metric) + [COLON + 1];
    LessByHead(p, [], p, [0x80]);
    LessTotal(p, p);
    assert p + [] == p && Less([], [0x80]) by { LessOneByte(0, 0x80); }
    assert Less(p + [0x80], q) by {
      LessByHead(Board(metric), [COLON] + [0x80], Board(metric), [COLON + 1]);
      LessOneByte(COLON, COLON + 1);
      LessTotal(Board(metric), Board(metric));
      assert p + [0x80] == Board(metric) + ([COLON] + [0x80]);
    }
    if Less(key, p) { LessTransitive(key, p, p + [0x80]); }
    if Less(key, p + [0x80]) { LessTransitive(key, p + [0x80], q); }
  }

  lemma {:induction false} RangeHasHead(key: Bytes, p: Bytes, a: Byte)
    requires a < 255 && InRange(key, p + [a], p + [a + 1])
    ensures |p| < |key| && key[..|p|] == p && key[|p|] == a
  {
    if p == [] {
      assert [] + [a] == [a] && [] + [a + 1] == [a + 1] && [a + 1][1..] == [];
      assert key != [] && !Less(key[1..], []);
    } else {
      assert (p + [a])[1..] == p[1..] + [a] && (p + [a + 1])[1..] == p[1..] + [a + 1];
      RangeHasHead(key[1..], p[1..], a);
      assert key == [key[0]] + key[1..] && p == [p[0]] + p[1..];
      assert key[..|p|] == [key[0]] + key[1..][..|p| - 1];
    }
  }

  /** The scan of one metric visits no row of another, whatever their names contain. */
  lemma OtherMetricsOutside(metric: Bytes, other: Bytes, row: Row)
    requires metric != other
    ensures !InRange(RowKey(other, row), Board(metric) + [COLON], Board(metric) + [COLON + 1])
  {
    var key, p := RowKey(other, row), Board(metric);
    hide Component, Inverted, InRange, Less;
    if InRange(key, p + [COLON], p + [COLON + 1]) {
      RangeHasHead(key, p, COLON);
      var rest, tail := key[|p| + 1..], Inverted(row.value) + ([COLON] + row.entity);
      assert key == p + [COLON] + rest;
      SameBoard(metric, rest, other, tail);
    }
  }

  lemma SameBoard(metric: Bytes, rest: Bytes, other: Bytes, tail: Bytes)
    requires Board(metric) + [COLON] + rest == Board(other) + [COLON] + tail
    ensures metric == other
  {
    hide Component;
    var a, b := Component(metric) + [COLON] + rest, Component(other) + [COLON] + tail;
    assert LB + a == Board(metric) + [COLON] + rest && LB + b == Board(other) + [COLON] + tail;
    assert (LB + a)[|LB|..] == a && (LB + b)[|LB|..] == b;
    ComponentRoundTrip(metric);
    ComponentRoundTrip(other);
    SplitAtColon(Component(metric), rest, Component(other), tail);
  }

  lemma LessOneByte(a: Byte, b: Byte)
    requires a < b
    ensures Less([], [b]) && Less([a] + [0x80], [b])
  {}

  /** Both passes visit only the board's rows, split by sign. */
  lemma VisitedRows(db: Store, metric: Bytes, board: Ranking.Board)
    requires Represents(db, metric, board)
    ensures forall kv :: kv in Visited(db, metric) ==> kv.value.ScoreRow?
    ensures forall kv :: kv in Forward(db, metric) ==> RowOf(kv, metric, board) && !kv.value.row.value.BelowZero()
    ensures forall kv :: kv in Backward(db, metric) ==> RowOf(kv, metric, board) && kv.value.row.value.BelowZero()
    ensures Ordered(Forward(db, metric)) && Ordered(Backward(db, metric))
  {
    var p, q := Board(metric) + [COLON], Board(metric) + [COLON + 1];
    RangeExact(db, p + [0x80], q);
    RangeExact(db, p, p + [0x80]);
    hide Range, Less, Component, RowKey;
    forall kv | kv in Forward(db, metric) || kv in Backward(db, metric)
      ensures RowOf(kv, metric, board) && (kv in Forward(db, metric) <==> !kv.value.row.value.BelowZero())
    {
      ScanBounds(metric, kv.key);
      RowKeySplit(metric, kv.value.row);
    }
    forall kv | kv in Visited(db, metric) ensures kv.value.ScoreRow? {
      assert kv in Forward(db, metric) || kv in Backward(db, metric);
    }
  }

  ghost predicate RowOf(kv: KV<Value>, metric: Bytes, board: Ranking.Board) {
    && kv.value.ScoreRow? && kv.key == RowKey(metric, kv.value.row)
    && kv.value.row.entity in board && board[kv.value.row.entity] == kv.value.row.value
  }

  lemma RowsInOrder(db: Store, metric: Bytes, board: Ranking.Board, i: nat, j: nat)
    requires Represents(db, metric, board) && i < j < |Visited(db, metric)|
    requires forall kv :: kv in Visited(db, metric) ==> kv.value.ScoreRow?
    ensures var rows := RowsOf(Visited(db, metric));
            Before(rows[i].value, rows[i].entity, rows[j].value, rows[j].entity)
  {
    hide Less, Represents, RowKey, Range, Forward, Backward, RowOf, Ordered, Before;
    VisitedRows(db, metric, board);
    var forward, backward := Forward(db, metric), Backward(db, metric);
    var all := Visited(db, metric);
    if j < |forward| {
      assert all[i] == forward[i] && all[j] == forward[j];
      ForwardInOrder(forward, metric, board, i, j);
    } else {
      var l := |backward| - 1 - (j - |forward|);
      assert all[j] == backward[l];
      if i < |forward| {
        assert all[i] == forward[i] && forward[i] in forward && backward[l] in backward;
        SignsInOrder(all[i].value.row, all[j].value.row);
      } else {
        var k := |backward| - 1 - (i - |forward|);
        assert all[i] == backward[k];
        BackwardInOrder(backward, metric, board, l, k);
      }
    }
  }

  lemma ForwardInOrder(forward: Store, metric: Bytes, board: Ranking.Board, i: nat, j: nat)
    requires Ordered(forward) && i < j < |forward|
    requires forall kv :: kv in forward ==> RowOf(kv, metric, board) && !kv.value.row.value.BelowZero()
    ensures forward[i].value.ScoreRow? && forward[j].value.ScoreRow?
    ensures var r, s := forward[i].value.row, forward[j].value.row; Before(r.value, r.entity, s.value, s.entity)
  {
    hide Less, RowKey;
    assert forward[i] in forward && forward[j] in forward;
    RowKeyOrder(metric, forward[i].value.row, forward[j].value.row);
  }

  lemma BackwardInOrder(backward: Store, metric: Bytes, board: Ranking.Board, l: nat, k: nat)
    requires Ordered(backward) && l < k < |backward|
    requires forall kv :: kv in backward ==> RowOf(kv, metric, board) && kv.value.row.value.BelowZero()
    ensures backward[k].value.ScoreRow? && backward[l].value.ScoreRow?
    ensures var r, s := backward[k].value.row, backward[l].value.row; Before(r.value, r.entity, s.value, s.entity)
  {
    hide Less, RowKey;
    assert backward[k] in backward && backward[l] in backward;
    RowKeyOrder(metric, backward[l].value.row, backward[k].value.row);
  }

  lemma SignsInOrder(r: Row, s: Row)
    requires !r.value.BelowZero() && s.value.BelowZero()
    ensures Before(r.value, r.entity, s.value, s.entity)
  {}

  /** TopN's scan lists the board exactly in leaderboard order, negative scores included. */
  lemma VisitedIsListing(db: Store, metric: Bytes, board: Ranking.Board)
    requires Represents(db, metric, board)
    ensures forall kv :: kv in Visited(db, metric) ==> kv.value.ScoreRow?
    ensures Listing(board, RowsOf(Visited(db, metric)))
  {
    VisitedRows(db, metric, board);
    var all := Visited(db, metric);
    var rows := RowsOf(all);
    forall i, j | 0 <= i < j < |rows|
      ensures Before(rows[i].value, rows[i].entity, rows[j].value, rows[j].entity)
    {
      RowsInOrder(db, metric, board, i, j);
    }
    forall i | 0 <= i < |rows| ensures rows[i].entity in board && board[rows[i].entity] == rows[i].value {
      assert all[i] in Forward(db, metric) || all[i] in Backward(db, metric);
    }
    forall e | e in board ensures Row(e, board[e]) in rows {
      var row := Row(e, board[e]);
      RowVisited(db, metric, board, row);
      var i :| 0 <= i < |all| && all[i] == KV(RowKey(metric, row), ScoreRow(row));
      assert rows[i] == row;
    }
  }

  /** TopN on a store that represents a board answers with the slice of the board's listing. */
  lemma TopNIsListing(db: Store, metric: Bytes, board: Ranking.Board, limit: nat, offset: nat)
    requires Represents(db, metric, board)
    ensures Readable(Visited(db, metric))
    ensures var rows := RowsOf(Visited(db, metric));
            && Listing(board, rows)
            && PageOf(Visited(db, metric), limit, offset)
               == Entries(Slice(rows, offset, if limit == 0 then |rows| else limit))
  {
    hide Represents, Visited, Listing, PageOf;
    VisitedIsListing(db, metric, board);
    PageIsSlice(Visited(db, metric), limit, offset);
  }

  lemma RowVisited(db: Store, metric: Bytes, board: Ranking.Board, row: Row)
    requires Represents(db, metric, board) && row.entity in board && board[row.entity] == row.value
    ensures KV(RowKey(metric, row), ScoreRow(row)) in Visited(db, metric)
  {
    var p, q := Board(metric) + [COLON], Board(metric) + [COLON + 1];
    RangeExact(db, p + [0x80], q);
    RangeExact(db, p, p + [0x80]);
    hide Range, Less, Component, RowKey;
    var kv := KV(RowKey(metric, row), ScoreRow(row));
    assert kv in db;
    RowKeySplit(metric, row);
    ScanBounds(metric, kv.key);
    if kv in Backward(db, metric) {
      var k :| 0 <= k < |Backward(db, metric)| && Backward(db, metric)[k] == kv;
      assert Reverse(Backward(db, metric))[|Backward(db, metric)| - 1 - k] == kv;
    }
  }
}
