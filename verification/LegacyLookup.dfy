/** internal/aggregates/batch_lookup.go: one legacy scan per board shared by all new entities of a
    batch, against Leaderboard.GetWithLookupStats, which scans again for every entity. */
module LegacyLookup {
  import opened Options
  import opened MemberCodec

  datatype Row = Row(entity: string, value: Float)

  /** The `lb-entity:` index and, per board, the sorted rows in iterator order. */
  datatype Scores = Scores(index: map<(string, string), Float>, rows: map<string, seq<Row>>) {
    function Board(metric: string): seq<Row> { if metric in rows then rows[metric] else [] }
  }

  function First(rows: seq<Row>, entity: string): Option<Float> {
    if rows == [] then None
    else if rows[0].entity == entity then Some(rows[0].value)
    else First(rows[1..], entity)
  }

  /** Leaderboard.Get: the entity index, else the first sorted row of the entity, else zero. */
  function Get(db: Scores, metric: string, entity: string): Float {
    if (metric, entity) in db.index then db.index[(metric, entity)]
    else
      var row := First(db.Board(metric), entity);
      if row.None? then ZERO else row.value
  }

  lemma {:induction false} FirstAppend(rows: seq<Row>, row: Row, entity: string)
    ensures First(rows + [row], entity)
            == if First(rows, entity).Some? then First(rows, entity) else if row.entity == entity then Some(row.value)
              else None
  {
    if rows == [] {
      assert (rows + [row])[0] == row;
    } else {
      assert (rows + [row])[1..] == rows[1..] + [row];
      FirstAppend(rows[1..], row, entity);
    }
  }

  lemma {:induction false} FirstPrefix(rows: seq<Row>, n: nat, entity: string)
    requires n <= |rows| && First(rows[..n], entity).Some?
    ensures First(rows, entity) == First(rows[..n], entity)
  {
    assert rows[..n] != [];
    if rows[0].entity != entity {
      assert rows[..n][1..] == rows[1..][..n - 1];
      FirstPrefix(rows[1..], n - 1, entity);
    }
  }

  /** The memo agrees with the first rows of the requested entities. */
  ghost predicate Holds(values: map<string, Float>, wanted: set<string>, rows: seq<Row>) {
    values.Keys <= wanted
    && forall e :: e in wanted ==> First(rows, e) == if e in values then Some(values[e]) else None
  }

  class LockedBatchLookup {
    const targets: map<string, set<string>>
    var legacy: map<string, map<string, Float>>

    constructor (targets: map<string, set<string>>)
      ensures this.targets == targets && legacy == map[]
    {
      this.targets, legacy := targets, map[];
    }

    ghost predicate Valid(db: Scores)
      reads this
    {
      forall m :: m in legacy ==> m in targets && Holds(legacy[m], targets[m], db.Board(m))
    }

    /** Scan until every requested entity of the board is found or the rows end. */
    static method Scan(rows: seq<Row>, wanted: set<string>) returns (values: map<string, Float>)
      ensures Holds(values, wanted, rows)
    {
      values := map[];
      var i := 0;
      while i < |rows|
        invariant 0 <= i <= |rows|
        invariant Holds(values, wanted, rows[..i])
      {
        var row := rows[i];
        assert rows[..i + 1] == rows[..i] + [row];
        forall e ensures First(rows[..i + 1], e)
                         == if First(rows[..i], e).Some? then First(rows[..i], e)
                           else if row.entity == e then Some(row.value) else None
        {
          FirstAppend(rows[..i], row, e);
        }
        if row.entity in wanted && row.entity !in values { values := values[row.entity := row.value]; }
        i := i + 1;
        if |values| == |wanted| {
          AllFound(values, wanted);
          forall e | e in wanted ensures First(rows, e) == Some(values[e]) { FirstPrefix(rows, i, e); }
          return;
        }
      }
      assert rows[..i] == rows;
    }

    /** However lookups interleave, each answers like a fresh Get; an unlocked target is an error. */
    method Lookup(db: Scores, metric: string, entity: string) returns (r: Option<Float>)
      requires Valid(db)
      modifies this
      ensures Valid(db)
      ensures r == if metric in targets && entity in targets[metric] then Some(Get(db, metric, entity)) else None
    {
      if metric !in targets || entity !in targets[metric] { return None; }
      if (metric, entity) in db.index { return Some(db.index[(metric, entity)]); }
      if metric !in legacy {
        var values := Scan(db.Board(metric), targets[metric]);
        legacy := legacy[metric := values];
      }
      assert Holds(legacy[metric], targets[metric], db.Board(metric));
      r := Some(if entity in legacy[metric] then legacy[metric][entity] else ZERO);
    }
  }

  lemma AllFound(values: map<string, Float>, wanted: set<string>)
    requires values.Keys <= wanted && |values| == |wanted|
    ensures values.Keys == wanted
  {
    assert wanted == values.Keys + (wanted - values.Keys);
  }
}
