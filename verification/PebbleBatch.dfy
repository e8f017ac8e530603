/** The Pebble write path: internal/query/executor.go executes one mutation at a time,
    internal/query/pebble_batch.go a whole batch with one score write per entity. */
module PebbleBatch {
  import opened Options
  import opened MemberCodec
  import L = LegacyLookup

  /** A board is named by metric and board, which BoardMetric joins with a byte no metric contains. */
  datatype Entity = Entity(metric: string, board: string, id: string)
  datatype ScoreRow = ScoreRow(entity: Entity, value: Float)
  datatype EventKey = EventKey(metric: string, ts: int)
  datatype IndexKey = IndexKey(metric: string, tag: string, value: string, ts: int)
  datatype Event = Event(value: Float, tags: map<string, string>)

  /** Primary events, tag index rows, `lb-entity:` scores, sorted `lb:` rows and replica receipts. */
  datatype Store = Store(events: map<EventKey, Event>, index: set<IndexKey>, scores: map<Entity, Float>,
                         sorted: set<ScoreRow>, receipts: set<string>)

  /** A WRITE with its timestamp assigned; `boards` maps each board to the entity it credits. */
  datatype Item = Item(isWrite: bool, metric: string, ts: int, value: Float, tags: map<string, string>,
                       boards: map<string, string>, operation: Option<string>)

  type Plus = (Float, Float) -> Float

  function ValuesOf(rows: set<ScoreRow>, e: Entity): set<Float> { set r | r in rows && r.entity == e :: r.value }

  /** Key order of an entity's rows on one board: greater bit patterns come first. */
  predicate Ahead(v: Float, w: Float) { v.Bits() > w.Bits() || (v.Bits() == w.Bits() && (v.negative || !w.negative)) }

  /** The row a scan of the board meets first. */
  function First(values: set<Float>): (v: Float)
    requires values != {}
    ensures v in values && forall w :: w in values ==> Ahead(v, w)
  {
    FirstExists(values);
    var v :| v in values && forall w :: w in values ==> Ahead(v, w);
    v
  }

  lemma {:induction false} FirstExists(values: set<Float>)
    requires values != {}
    ensures exists v :: v in values && forall w :: w in values ==> Ahead(v, w)
  {
    var x :| x in values;
    var rest := values - {x};
    if rest == {} {
      assert values == {x} && Ahead(x, x);
    } else {
      FirstExists(rest);
      var y :| y in rest && forall w :: w in rest ==> Ahead(y, w);
      assert values == rest + {x};
      var top := if Ahead(y, x) then y else x;
      assert top in values && forall w :: w in values ==> Ahead(top, w);
    }
  }

  /** Leaderboard.Get: the entity index, else the first legacy sorted row, else zero. */
  function Score(st: Store, e: Entity): Float {
    if e in st.scores then st.scores[e]
    else
      var legacy := ValuesOf(st.sorted, e);
      if legacy == {} then ZERO else First(legacy)
  }

  function TagKeys(metric: string, ts: int, tags: map<string, string>): set<IndexKey> {
    set k | k in tags :: IndexKey(metric, k, tags[k], ts)
  }

  /** Storage.StageEvent: an overwritten event's index rows go first. */
  function StageEvent(st: Store, metric: string, ts: int, event: Event): Store {
    var key := EventKey(metric, ts);
    var stale := if key in st.events then TagKeys(metric, ts, st.events[key].tags) else {};
    st.(events := st.events[key := event], index := st.index - stale + TagKeys(metric, ts, event.tags))
  }

  function Rows(values: map<Entity, Float>): set<ScoreRow> { set e | e in values :: ScoreRow(e, values[e]) }

  /** StageValueFromCurrent for several entities: delete the row of `current`, write row and score. */
  function StageScores(st: Store, current: map<Entity, Float>, values: map<Entity, Float>): Store
    requires values.Keys <= current.Keys
  {
    st.(sorted := st.sorted - Rows(map e | e in values :: current[e]) + Rows(values), scores := st.scores + values)
  }

  function Credited(q: Item): set<Entity> { set b | b in q.boards :: Entity(q.metric, b, q.boards[b]) }

  function Sum(plus: Plus, st: Store, e: Entity, q: Item): Float
  {
    plus(Score(st, e), q.value)
  }

  predicate Acceptable(q: Item) { q.isWrite && q.value.Finite() && q.ts >= 0 }

  predicate Applied(st: Store, q: Item) { q.operation.Some? && q.operation.value in st.receipts }

  predicate Overflows(plus: Plus, st: Store, q: Item)
  {
    exists e :: e in Credited(q) && !Sum(plus, st, e, q).Finite()
  }

  function NewScores(plus: Plus, st: Store, q: Item): map<Entity, Float>
  {
    map e | e in Credited(q) :: Sum(plus, st, e, q).Canonical()
  }

  function OldScores(st: Store, es: set<Entity>): map<Entity, Float>
  {
    map e | e in es :: Score(st, e)
  }

  predicate Rejects(plus: Plus, st: Store, q: Item)
  {
    !Acceptable(q) || (!Applied(st, q) && Overflows(plus, st, q))
  }

  /** executeMutation for one acceptable WRITE, committed on its own. */
  function Execute(plus: Plus, st: Store, q: Item): (r: Store)
  {
    if Rejects(plus, st, q) || Applied(st, q) then st
    else
      var staged := StageEvent(st, q.metric, q.ts, Event(q.value, q.tags));
      var scored := StageScores(staged, OldScores(st, Credited(q)), NewScores(plus, st, q));
      if q.operation.Some? then scored.(receipts := st.receipts + {q.operation.value}) else scored
  }

  function ExecuteAll(plus: Plus, st: Store, items: seq<Item>): (r: Store)
  {
    if items == [] then st else Execute(plus, ExecuteAll(plus, st, items[..|items| - 1]), items[|items| - 1])
  }

  // ---- What one item does, and what many do ----

  /** The item is a valid write that was not applied before and overflows no board. */
  ghost predicate Runs(plus: Plus, st: Store, q: Item) {
    && q.isWrite && q.value.Finite() && q.ts >= 0 && (q.operation.Some? ==> q.operation.value !in st.receipts)
    && forall b :: b in q.boards ==> plus(Score(st, Entity(q.metric, b, q.boards[b])), q.value).Finite()
  }

  predicate Credits(q: Item, e: Entity) { q.metric == e.metric && e.board in q.boards && q.boards[e.board] == e.id }

  lemma CreditedExactly(q: Item, e: Entity)
    ensures e in Credited(q) <==> Credits(q, e)
  {
    if Credits(q, e) { assert Entity(q.metric, e.board, q.boards[e.board]) == e; }
  }

  /** An item takes effect exactly if it runs, and is an error exactly if it neither runs nor was applied before. */
  lemma RunsExactly(plus: Plus, st: Store, q: Item)
    ensures !Rejects(plus, st, q) && !Applied(st, q) <==> Runs(plus, st, q)
    ensures Rejects(plus, st, q) <==>
              !Runs(plus, st, q) && !(q.isWrite && q.value.Finite() && q.ts >= 0
                                      && q.operation.Some? && q.operation.value in st.receipts)
  {
    hide Score;
    if e :| e in Credited(q) && !Sum(plus, st, e, q).Finite() { CreditedExactly(q, e); }
    if b :| b in q.boards && !plus(Score(st, Entity(q.metric, b, q.boards[b])), q.value).Finite() {
      var e := Entity(q.metric, b, q.boards[b]);
      assert e in Credited(q) && !Sum(plus, st, e, q).Finite();
    }
  }

  /** An item that runs writes its event and its receipt, and no other. */
  lemma ExecuteWrites(plus: Plus, st: Store, q: Item)
    ensures !Runs(plus, st, q) ==> Execute(plus, st, q) == st
    ensures Runs(plus, st, q) ==>
              var r := Execute(plus, st, q);
              && r.events == st.events[EventKey(q.metric, q.ts) := Event(q.value, q.tags)]
              && r.receipts == st.receipts + if q.operation.Some? then {q.operation.value} else {}
  {
    hide Score, Rejects, Applied, Runs;
    RunsExactly(plus, st, q);
    assert st.receipts + {} == st.receipts;
  }

  /** It adds its value to the score of every entity it credits and moves that entity's sorted row. */
  lemma ExecuteScoresOf(plus: Plus, st: Store, q: Item, e: Entity, v: Float)
    requires Runs(plus, st, q)
    ensures var r, new' := Execute(plus, st, q), plus(Score(st, e), q.value).Canonical();
            if Credits(q, e)
            then && e in r.scores && r.scores[e] == new'
                 && (ScoreRow(e, v) in r.sorted <==> v == new' || (ScoreRow(e, v) in st.sorted && v != Score(st, e)))
            else && (e in r.scores <==> e in st.scores) && (e in st.scores ==> r.scores[e] == st.scores[e])
                 && (ScoreRow(e, v) in r.sorted <==> ScoreRow(e, v) in st.sorted)
  {
    hide Score, Rejects, Applied, Runs;
    RunsExactly(plus, st, q);
    CreditedExactly(q, e);
    var current, values := OldScores(st, Credited(q)), NewScores(plus, st, q);
    var row := ScoreRow(e, v);
    InRows(map f | f in values :: current[f], row);
    InRows(values, row);
  }

  /** An index row exists exactly for every tag of every event. */
  ghost predicate Indexed(st: Store) {
    forall m, k, v, ts :: IndexKey(m, k, v, ts) in st.index <==>
      EventKey(m, ts) in st.events && k in st.events[EventKey(m, ts)].tags && st.events[EventKey(m, ts)].tags[k] == v
  }

  lemma NothingIndexed(st: Store)
    requires st.events == map[] && st.index == {}
    ensures Indexed(st)
  {}

  /** Staging keeps the index exact: the rows of an overwritten event go. */
  lemma StageIndexed(st: Store, metric: string, ts: int, event: Event)
    requires Indexed(st)
    ensures Indexed(StageEvent(st, metric, ts, event))
  {
    var r, key := StageEvent(st, metric, ts, event), EventKey(metric, ts);
    forall m, k, v, t
      ensures IndexKey(m, k, v, t) in r.index <==>
              EventKey(m, t) in r.events && k in r.events[EventKey(m, t)].tags && r.events[EventKey(m, t)].tags[k] == v
    {
      InTags(metric, ts, event.tags, IndexKey(m, k, v, t));
      if key in st.events { InTags(metric, ts, st.events[key].tags, IndexKey(m, k, v, t)); }
    }
  }

  lemma InTags(metric: string, ts: int, tags: map<string, string>, i: IndexKey)
    ensures i in TagKeys(metric, ts, tags) <==>
              i.metric == metric && i.ts == ts && i.tag in tags && tags[i.tag] == i.value
  {}

  lemma {:induction false} ExecuteAllIndexed(plus: Plus, st: Store, items: seq<Item>)
    requires Indexed(st)
    ensures Indexed(ExecuteAll(plus, st, items))
  {
    hide Indexed, Rejects, Applied, Score;
    if items != [] {
      var here, q := ExecuteAll(plus, st, items[..|items| - 1]), items[|items| - 1];
      ExecuteAllIndexed(plus, st, items[..|items| - 1]);
      StageIndexed(here, q.metric, q.ts, Event(q.value, q.tags));
      SameIndex(StageEvent(here, q.metric, q.ts, Event(q.value, q.tags)), Execute(plus, here, q), here);
    }
  }

  lemma SameIndex(staged: Store, r: Store, here: Store)
    requires Indexed(staged) && Indexed(here)
    requires r == here || (r.index == staged.index && r.events == staged.events)
    ensures Indexed(r)
  {}

  /** The values of the items that ran and credit the entity, in input order. */
  ghost function ValuesFor(plus: Plus, st: Store, items: seq<Item>, e: Entity): seq<Float> {
    if items == [] then []
    else
      var init, q := items[..|items| - 1], items[|items| - 1];
      ValuesFor(plus, st, init, e)
      + if Runs(plus, ExecuteAll(plus, st, init), q) && Credits(q, e) then [q.value] else []
  }

  function Accumulated(plus: Plus, score: Float, values: seq<Float>): Float {
    if values == [] then score
    else plus(Accumulated(plus, score, values[..|values| - 1]), values[|values| - 1]).Canonical()
  }

  /** Every final score is the old one with those values added from left to right. */
  lemma {:induction false} ScoresAccumulate(plus: Plus, st: Store, items: seq<Item>, e: Entity)
    ensures Score(ExecuteAll(plus, st, items), e) == Accumulated(plus, Score(st, e), ValuesFor(plus, st, items, e))
    ensures e in ExecuteAll(plus, st, items).scores <==> e in st.scores || ValuesFor(plus, st, items, e) != []
  {
    hide Score, Rejects, Applied, Execute, Runs, Sum;
    if items != [] {
      var init, q := items[..|items| - 1], items[|items| - 1];
      ScoresAccumulate(plus, st, init, e);
      var here, values := ExecuteAll(plus, st, init), ValuesFor(plus, st, init, e);
      assert (values + [q.value])[..|values|] == values && values + [] == values;
      RunsExactly(plus, here, q);
      if Runs(plus, here, q) {
        CreditedExactly(q, e);
        ExecutedScore(plus, here, q, e);
        ExecuteScores(plus, here, q);
        SumIs(plus, here, e, q);
      } else {
        NotExecuted(plus, here, q);
      }
    }
  }

  lemma SumIs(plus: Plus, st: Store, e: Entity, q: Item)
    ensures Sum(plus, st, e, q) == plus(Score(st, e), q.value)
  {}

  // ---- Sorted rows that were deleted and written ----

  /** For every entity the values whose rows were deleted. */
  type Trail = map<Entity, set<Float>>

  predicate Gone(gone: Trail, r: ScoreRow) { r.entity in gone && r.value in gone[r.entity] }

  function Replaced(rows: set<ScoreRow>, gone: Trail, values: map<Entity, Float>): set<ScoreRow> {
    (set r | r in rows && !Gone(gone, r)) + Rows(values)
  }

  function Longer(gone: Trail, current: map<Entity, Float>): Trail {
    map e | e in gone.Keys + current.Keys ::
      (if e in gone then gone[e] else {}) + (if e in current then {current[e]} else {})
  }

  /** Staging deletes the row of the current score, and with it any older row that happens to have that value. */
  lemma StageReplaces(st: Store, rows: set<ScoreRow>, gone: Trail, done: map<Entity, Float>,
                      current: map<Entity, Float>, values: map<Entity, Float>)
    requires st.sorted == Replaced(rows, gone, done) && gone.Keys == done.Keys && current.Keys == values.Keys
    requires forall e :: e in values && e in done ==> current[e] == done[e]
    ensures StageScores(st, current, values).sorted == Replaced(rows, Longer(gone, current), done + values)
  {
    var stale := map e | e in values :: current[e];
    forall r
      ensures r in st.sorted - Rows(stale) + Rows(values) <==> r in Replaced(rows, Longer(gone, current), done + values)
    {
      InRows(stale, r);
      InRows(values, r);
      InRows(done, r);
      InRows(done + values, r);
    }
  }

  lemma InRows(values: map<Entity, Float>, r: ScoreRow)
    ensures r in Rows(values) <==> r.entity in values && values[r.entity] == r.value
  {}

  lemma ScoreAfter(st: Store, st': Store, values: map<Entity, Float>, e: Entity)
    requires st'.scores == st.scores + values
    requires forall r: ScoreRow :: r.entity !in values ==> (r in st'.sorted <==> r in st.sorted)
    ensures Score(st', e) == if e in values then values[e] else Score(st, e)
  {
    if e !in values { assert ValuesOf(st'.sorted, e) == ValuesOf(st.sorted, e); }
  }

  // ---- executeWriteBatch ----

  datatype BatchResult = BatchResult(ok: bool, accepted: nat, failed: nat, errors: seq<nat>)

  datatype ScoreState = ScoreState(initial: Float, current: Float, changed: bool)

  type Tracked = map<Entity, ScoreState>

  function Final(scores: Tracked): map<Entity, Float> {
    map e | e in scores && scores[e].changed :: scores[e].current
  }

  /** The staged scores stand for the store `here` that one-at-a-time execution has reached. */
  ghost predicate Tracks(scores: Tracked, st: Store, here: Store, gone: Trail) {
    && here.scores == st.scores + Final(scores) && here.sorted == Replaced(st.sorted, gone, Final(scores))
    && TrailFrom(scores, gone) && ScoresTrack(scores, st, here)
  }

  /** The trail of a changed score begins with its value before the batch. */
  ghost predicate TrailFrom(scores: Tracked, gone: Trail) {
    gone.Keys == Final(scores).Keys && forall e :: e in gone ==> scores[e].initial in gone[e]
  }

  ghost predicate ScoresTrack(scores: Tracked, st: Store, here: Store) {
    forall e :: e in scores ==> scores[e].initial == Score(st, e) && scores[e].current == Score(here, e)
  }

  /** Read the score once, then keep it in memory. */
  method Load(st: Store, scores: Tracked, e: Entity, ghost here: Store, ghost gone: Trail) returns (loaded: Tracked)
    requires Tracks(scores, st, here, gone)
    ensures Tracks(loaded, st, here, gone) && e in loaded
    ensures forall f :: f in scores ==> f in loaded && loaded[f] == scores[f]
  {
    hide Tracks;
    loaded := scores;
    if e !in scores {
      LoadTracks(st, scores, e, here, gone);
      var value := Score(st, e);
      loaded := scores[e := ScoreState(value, value, false)];
    }
  }

  lemma UntouchedRows(st: Store, here: Store, gone: Trail, final: map<Entity, Float>, r: ScoreRow)
    requires here.sorted == Replaced(st.sorted, gone, final) && gone.Keys == final.Keys && r.entity !in final
    ensures r in here.sorted <==> r in st.sorted
  {
    InRows(final, r);
  }

  lemma LoadTracks(st: Store, scores: Tracked, e: Entity, here: Store, gone: Trail)
    requires Tracks(scores, st, here, gone) && e !in scores
    ensures Tracks(scores[e := ScoreState(Score(st, e), Score(st, e), false)], st, here, gone)
  {
    hide Score, Replaced;
    forall r: ScoreRow | r.entity !in Final(scores) ensures r in here.sorted <==> r in st.sorted {
      UntouchedRows(st, here, gone, Final(scores), r);
    }
    ScoreAfter(st, here, Final(scores), e);
    var loaded := scores[e := ScoreState(Score(st, e), Score(st, e), false)];
    assert Final(loaded) == Final(scores);
  }

  /** Validate every board of one item, in any map order, before staging any part of it. */
  method Propose(plus: Plus, st: Store, scores: Tracked, q: Item, ghost here: Store, ghost gone: Trail)
    returns (loaded: Tracked, finite: bool, next: map<Entity, Float>)
    requires Tracks(scores, st, here, gone)
    ensures Tracks(loaded, st, here, gone)
    ensures finite <==> !Overflows(plus, here, q)
    ensures finite ==> next == NewScores(plus, here, q) && next.Keys <= loaded.Keys
  {
    hide Tracks, Score;
    loaded, next := scores, map[];
    var todo := Credited(q);
    while todo != {}
      invariant Tracks(loaded, st, here, gone) && todo <= Credited(q)
      invariant next.Keys == Credited(q) - todo && next.Keys <= loaded.Keys
      invariant forall e :: e in next ==> next[e] == Sum(plus, here, e, q).Canonical() && Sum(plus, here, e, q).Finite()
    {
      var e :| e in todo;
      loaded := Load(st, loaded, e, here, gone);
      LoadedScore(loaded, st, here, gone, e);
      var value := plus(loaded[e].current, q.value);
      if !value.Finite() { return loaded, false, next; }
      next := next[e := value.Canonical()];
      todo := todo - {e};
    }
    finite := true;
  }

  lemma LoadedScore(scores: Tracked, st: Store, here: Store, gone: Trail, e: Entity)
    requires Tracks(scores, st, here, gone) && e in scores
    ensures scores[e].current == Score(here, e) && scores[e].initial == Score(st, e)
    ensures e in Final(scores) ==> Final(scores)[e] == Score(here, e)
  {}

  function Update(scores: Tracked, next: map<Entity, Float>): Tracked
    requires next.Keys <= scores.Keys
  {
    map e | e in scores :: if e in next then ScoreState(scores[e].initial, next[e], true) else scores[e]
  }

  lemma FinalUpdate(scores: Tracked, next: map<Entity, Float>)
    requires next.Keys <= scores.Keys
    ensures Final(Update(scores, next)) == Final(scores) + next
  {}

  lemma ExecuteScores(plus: Plus, here: Store, q: Item)
    requires !Rejects(plus, here, q) && !Applied(here, q)
    ensures var r, next := Execute(plus, here, q), NewScores(plus, here, q);
            && r.scores == here.scores + next
            && r.sorted == StageScores(here, OldScores(here, Credited(q)), next).sorted
  {
    hide Score;
  }

  lemma UpdateRows(plus: Plus, scores: Tracked, st: Store, here: Store, gone: Trail, q: Item)
    requires Tracks(scores, st, here, gone) && Credited(q) <= scores.Keys && !Rejects(plus, here, q)
             && !Applied(here, q)
    ensures Execute(plus, here, q).sorted
            == Replaced(st.sorted, Longer(gone, OldScores(here, Credited(q))), Final(scores) + NewScores(plus, here, q))
  {
    hide Score, Execute, Rejects, Replaced, StageScores, Final, Longer;
    ExecuteScores(plus, here, q);
    var current, next := OldScores(here, Credited(q)), NewScores(plus, here, q);
    forall e | e in next && e in Final(scores) ensures current[e] == Final(scores)[e] {
      FinalIsTracked(scores, e);
      LoadedScore(scores, st, here, gone, e);
    }
    StageReplaces(here, st.sorted, gone, Final(scores), current, next);
  }

  lemma FinalIsTracked(scores: Tracked, e: Entity)
    requires e in Final(scores)
    ensures e in scores
  {}

  lemma UpdateTrail(plus: Plus, scores: Tracked, st: Store, here: Store, gone: Trail, q: Item)
    requires Tracks(scores, st, here, gone) && Credited(q) <= scores.Keys
    ensures TrailFrom(Update(scores, NewScores(plus, here, q)), Longer(gone, OldScores(here, Credited(q))))
  {
    hide Score, Replaced, Sum, Tracks;
    var next, gone' := NewScores(plus, here, q), Longer(gone, OldScores(here, Credited(q)));
    FinalUpdate(scores, next);
    assert TrailFrom(scores, gone) by { TracksTrail(scores, st, here, gone); }
    forall e | e in gone' ensures e in scores && scores[e].initial in gone'[e] {
      TrailStarts(scores, st, here, gone, q, e);
    }
  }

  lemma TracksTrail(scores: Tracked, st: Store, here: Store, gone: Trail)
    requires Tracks(scores, st, here, gone)
    ensures TrailFrom(scores, gone) && ScoresTrack(scores, st, here)
  {}

  lemma UpdateScores(plus: Plus, scores: Tracked, st: Store, here: Store, q: Item)
    requires ScoresTrack(scores, st, here) && Credited(q) <= scores.Keys && !Rejects(plus, here, q) && !Applied(here, q)
    ensures ScoresTrack(Update(scores, NewScores(plus, here, q)), st, Execute(plus, here, q))
  {
    hide Score, Execute, Rejects, Applied, Sum;
    forall e | e in scores ensures var next := NewScores(plus, here, q);
                                   Score(Execute(plus, here, q), e) == if e in next then next[e] else Score(here, e) {
      ExecutedScore(plus, here, q, e);
    }
  }

  lemma UpdateTracks(plus: Plus, scores: Tracked, st: Store, here: Store, gone: Trail, q: Item)
    requires Tracks(scores, st, here, gone) && Credited(q) <= scores.Keys && !Rejects(plus, here, q)
             && !Applied(here, q)
    ensures Tracks(Update(scores, NewScores(plus, here, q)), st, Execute(plus, here, q),
            Longer(gone, OldScores(here, Credited(q))))
  {
    hide Score, Execute, Rejects, Applied, Replaced, StageScores, Sum, TrailFrom, ScoresTrack, Update, Longer, Final;
    var next := NewScores(plus, here, q);
    FinalUpdate(scores, next);
    ExecuteScores(plus, here, q);
    UpdateRows(plus, scores, st, here, gone, q);
    UpdateTrail(plus, scores, st, here, gone, q);
    UpdateScores(plus, scores, st, here, q);
    assert st.scores + (Final(scores) + next) == (st.scores + Final(scores)) + next;
  }

  lemma TrailStarts(scores: Tracked, st: Store, here: Store, gone: Trail, q: Item, e: Entity)
    requires Tracks(scores, st, here, gone) && Credited(q) <= scores.Keys
    requires e in Longer(gone, OldScores(here, Credited(q)))
    ensures e in scores && scores[e].initial in Longer(gone, OldScores(here, Credited(q)))[e]
  {
    hide Score;
    if e !in gone { Unchanged(scores, st, here, gone, e); }
  }

  /** An executed item changes the scores of its entities and no other score. */
  lemma ExecutedScore(plus: Plus, here: Store, q: Item, e: Entity)
    requires !Rejects(plus, here, q) && !Applied(here, q)
    ensures var next := NewScores(plus, here, q);
            Score(Execute(plus, here, q), e) == if e in next then next[e] else Score(here, e)
  {
    hide Score, Execute, Rejects, Applied, Sum;
    ExecuteScores(plus, here, q);
    var current, next := OldScores(here, Credited(q)), NewScores(plus, here, q);
    var stale := map e | e in next :: current[e];
    forall r: ScoreRow | r.entity !in next ensures r in Execute(plus, here, q).sorted <==> r in here.sorted {
      InRows(stale, r);
      InRows(next, r);
    }
    ScoreAfter(here, Execute(plus, here, q), next, e);
  }

  /** The values before the batch of the scores that changed. */
  function Initials(scores: Tracked, es: set<Entity>): Trail
    requires es <= scores.Keys
  {
    map e | e in es :: {scores[e].initial}
  }

  /** Each changed score is written once, replacing the row it had before the batch. */
  method WriteScores(st: Store, staged: Store, scores: Tracked) returns (out: Store)
    requires staged.scores == st.scores && staged.sorted == st.sorted
    ensures out == staged.(scores := st.scores + Final(scores),
                           sorted := Replaced(st.sorted, Initials(scores, Final(scores).Keys), Final(scores)))
  {
    hide StageScores, Replaced;
    out := staged;
    var todo := Final(scores).Keys;
    ghost var done: map<Entity, Float> := map[];
    NothingReplaced(st);
    assert Initials(scores, {}) == map[];
    while todo != {}
      invariant todo <= Final(scores).Keys && done.Keys == Final(scores).Keys - todo
      invariant forall e :: e in done ==> done[e] == Final(scores)[e]
      invariant out
                == staged.(scores := st.scores + done, sorted := Replaced(st.sorted, Initials(scores, done.Keys), done))
    {
      var e :| e in todo;
      var current, value := map[e := scores[e].initial], map[e := scores[e].current];
      WriteOne(st, out, scores, done, e);
      out := StageScores(out, current, value);
      done := done + value;
      todo := todo - {e};
    }
    assert done == Final(scores);
  }

  lemma NothingReplaced(st: Store)
    ensures Replaced(st.sorted, map[], map[]) == st.sorted && st.scores + map[] == st.scores
  {}

  lemma InitialsNext(scores: Tracked, es: set<Entity>, e: Entity)
    requires e in scores && es <= scores.Keys && e !in es
    ensures Longer(Initials(scores, es), map[e := scores[e].initial]) == Initials(scores, es + {e})
  {
    var longer, initials := Longer(Initials(scores, es), map[e := scores[e].initial]), Initials(scores, es + {e});
    forall x | x in longer ensures longer[x] == initials[x] {}
  }

  lemma Staged(st: Store, current: map<Entity, Float>, values: map<Entity, Float>)
    requires values.Keys <= current.Keys
    ensures StageScores(st, current, values)
            == st.(scores := st.scores + values, sorted := StageScores(st, current, values).sorted)
  {}

  lemma WriteOne(st: Store, out: Store, scores: Tracked, done: map<Entity, Float>, e: Entity)
    requires e in scores && e !in done && done.Keys <= scores.Keys
    requires out.scores == st.scores + done && out.sorted == Replaced(st.sorted, Initials(scores, done.Keys), done)
    ensures var current, value := map[e := scores[e].initial], map[e := scores[e].current];
            && (done + value).Keys <= scores.Keys
            && StageScores(out, current, value)
               == out.(scores := st.scores + (done + value),
                       sorted := Replaced(st.sorted, Initials(scores, (done + value).Keys), done + value))
  {
    hide Replaced, Longer, StageScores, Rows;
    var current, value := map[e := scores[e].initial], map[e := scores[e].current];
    assert (done + value).Keys == done.Keys + {e};
    InitialsNext(scores, done.Keys, e);
    StageReplaces(out, st.sorted, Initials(scores, done.Keys), done, current, value);
    Staged(out, current, value);
    assert (st.scores + done) + value == st.scores + (done + value);
  }

  // ---- What the batch leaves behind ----

  /** One-at-a-time execution passes through this score of the entity. */
  ghost predicate Passes(plus: Plus, st: Store, items: seq<Item>, e: Entity, v: Float) {
    exists i :: 0 <= i <= |items| && ScoreAt(plus, st, items, i, e) == v
  }

  function ScoreAt(plus: Plus, st: Store, items: seq<Item>, i: nat, e: Entity): Float
    requires i <= |items|
  {
    Score(ExecuteAll(plus, st, items[..i]), e)
  }

  /** Stale rows that hold a score strictly between an entity's first and last score of the batch. */
  ghost function PassedRows(plus: Plus, st: Store, items: seq<Item>): set<ScoreRow> {
    set r | r in st.sorted && Passes(plus, st, items, r.entity, r.value)
            && r.value != Score(st, r.entity) && r.value != Score(ExecuteAll(plus, st, items), r.entity)
  }

  /** The deleted values and the current one are the scores execution has passed through. */
  ghost predicate Follows(plus: Plus, st: Store, items: seq<Item>, here: Store, gone: Trail) {
    forall e, v :: Passes(plus, st, items, e, v) <==> v == Score(here, e) || (e in gone && v in gone[e])
  }

  lemma PassesNext(plus: Plus, st: Store, items: seq<Item>, q: Item, e: Entity, v: Float)
    ensures Passes(plus, st, items + [q], e, v)
            <==> Passes(plus, st, items, e, v) || v == Score(ExecuteAll(plus, st, items + [q]), e)
  {
    hide Score, ExecuteAll;
    var more := items + [q];
    assert more[..|more|] == more;
    if i :| 0 <= i <= |items| && ScoreAt(plus, st, items, i, e) == v {
      assert more[..i] == items[..i];
      assert ScoreAt(plus, st, more, i, e) == v;
    }
    if Passes(plus, st, more, e, v) {
      var i :| 0 <= i <= |more| && ScoreAt(plus, st, more, i, e) == v;
      if i <= |items| {
        assert more[..i] == items[..i];
        assert ScoreAt(plus, st, items, i, e) == v;
      }
    }
    if v == Score(ExecuteAll(plus, st, more), e) { assert ScoreAt(plus, st, more, |more|, e) == v; }
  }

  lemma FollowsNext(plus: Plus, st: Store, items: seq<Item>, q: Item, here: Store, gone: Trail)
    requires here == ExecuteAll(plus, st, items) && Follows(plus, st, items, here, gone)
    ensures var executed := !Rejects(plus, here, q) && !Applied(here, q);
            Follows(plus, st, items + [q], Execute(plus, here, q),
                    if executed then Longer(gone, OldScores(here, Credited(q))) else gone)
  {
    hide Score, ExecuteAll, Execute, Rejects, Applied, Passes, Sum;
    var here' := Execute(plus, here, q);
    var executed := !Rejects(plus, here, q) && !Applied(here, q);
    var gone' := if executed then Longer(gone, OldScores(here, Credited(q))) else gone;
    ExecuteNext(plus, st, items, q);
    forall e, v ensures Passes(plus, st, items + [q], e, v) <==> v == Score(here', e) || (e in gone' && v in gone'[e]) {
      PassesNext(plus, st, items, q, e, v);
      if executed { ExecutedScore(plus, here, q, e); } else { NotExecuted(plus, here, q); }
    }
  }

  lemma ExecuteNext(plus: Plus, st: Store, items: seq<Item>, q: Item)
    ensures ExecuteAll(plus, st, items + [q]) == Execute(plus, ExecuteAll(plus, st, items), q)
  {
    assert (items + [q])[..|items|] == items;
  }

  lemma NotExecuted(plus: Plus, here: Store, q: Item)
    requires Rejects(plus, here, q) || Applied(here, q)
    ensures Execute(plus, here, q) == here
  {}

  /** The batch keeps exactly the passed rows that one-at-a-time execution would have deleted. */
  lemma BatchKeepsPassed(plus: Plus, st: Store, items: seq<Item>, scores: Tracked, gone: Trail)
    requires var here := ExecuteAll(plus, st, items);
             Tracks(scores, st, here, gone) && Follows(plus, st, items, here, gone)
    ensures var here, kept := ExecuteAll(plus, st, items), PassedRows(plus, st, items);
            && Replaced(st.sorted, Initials(scores, Final(scores).Keys), Final(scores)) == here.sorted + kept
            && here.sorted !! kept
  {
    hide Score, ExecuteAll, Passes;
    var here, kept := ExecuteAll(plus, st, items), PassedRows(plus, st, items);
    var out := Replaced(st.sorted, Initials(scores, Final(scores).Keys), Final(scores));
    forall r ensures (r in out <==> r in here.sorted || r in kept) && !(r in here.sorted && r in kept) {
      InRows(Final(scores), r);
      if r.entity in Final(scores) {
        LoadedScore(scores, st, here, gone, r.entity);
      } else {
        Unchanged(scores, st, here, gone, r.entity);
      }
      assert Passes(plus, st, items, r.entity, r.value) <==> r.value == Score(here, r.entity) || Gone(gone, r);
    }
  }

  lemma Unchanged(scores: Tracked, st: Store, here: Store, gone: Trail, e: Entity)
    requires Tracks(scores, st, here, gone) && e !in Final(scores)
    ensures Score(here, e) == Score(st, e)
  {
    hide Score, Replaced;
    forall r: ScoreRow | r.entity !in Final(scores) ensures r in here.sorted <==> r in st.sorted {
      UntouchedRows(st, here, gone, Final(scores), r);
    }
    ScoreAfter(st, here, Final(scores), e);
  }

  function WriteTo(e: Entity, x: Float): Item {
    Item(true, e.metric, 1, x, map[], map[e.board := e.id], None)
  }

  lemma WritesScore(plus: Plus, st: Store, e: Entity, x: Float)
    requires x.Finite() && plus(Score(st, e), x).Finite()
    ensures Score(Execute(plus, st, WriteTo(e, x)), e) == plus(Score(st, e), x).Canonical()
  {
    var q := WriteTo(e, x);
    assert q.boards.Keys == {e.board} && Entity(q.metric, e.board, q.boards[e.board]) == e;
    assert Credited(q) == {e};
    hide Score, Execute;
    ExecutedScore(plus, st, q, e);
  }

  lemma TwoWrites(plus: Plus, st: Store, e: Entity, x: Float, y: Float)
    requires x.Finite() && y.Finite()
    requires plus(Score(st, e), x).Finite() && plus(plus(Score(st, e), x).Canonical(), y).Finite()
    ensures var two, b := [WriteTo(e, x), WriteTo(e, y)], plus(Score(st, e), x).Canonical();
            Passes(plus, st, two, e, b) && Score(ExecuteAll(plus, st, two), e) == plus(b, y).Canonical()
  {
    hide Score, Execute, ExecuteAll, WriteTo, Tracks, Follows;
    var one, two := [WriteTo(e, x)], [WriteTo(e, x), WriteTo(e, y)];
    NothingTracked(plus, st);
    ExecuteNext(plus, st, [], WriteTo(e, x));
    ExecuteNext(plus, st, one, WriteTo(e, y));
    assert [] + [WriteTo(e, x)] == one && one + [WriteTo(e, y)] == two && two[..1] == one;
    WritesScore(plus, st, e, x);
    WritesScore(plus, ExecuteAll(plus, st, one), e, y);
    assert ScoreAt(plus, st, two, 1, e) == Score(ExecuteAll(plus, st, one), e);
  }

  /** An old row with the score that two writes pass through stays after the batch and goes one at a time. */
  lemma StaleRowStays(plus: Plus, e: Entity, a: Float, x: Float, y: Float)
    requires x.Finite() && y.Finite() && plus(a, x).Finite() && plus(plus(a, x).Canonical(), y).Finite()
    requires var b := plus(a, x).Canonical(); b != a && plus(b, y).Canonical() != b
    ensures var b := plus(a, x).Canonical();
            var st := Store(map[], {}, map[e := a], {ScoreRow(e, a), ScoreRow(e, b)}, {});
            ScoreRow(e, b) in PassedRows(plus, st, [WriteTo(e, x), WriteTo(e, y)])
  {
    hide ExecuteAll, WriteTo, Passes;
    var b := plus(a, x).Canonical();
    var st := Store(map[], {}, map[e := a], {ScoreRow(e, a), ScoreRow(e, b)}, {});
    assert Score(st, e) == a;
    TwoWrites(plus, st, e, x, y);
  }

  /** Without stale rows nothing is left behind. */
  lemma NothingPassed(plus: Plus, st: Store, items: seq<Item>)
    requires forall r :: r in st.sorted ==> r.value == Score(st, r.entity)
    ensures PassedRows(plus, st, items) == {}
  {
    hide Score, Passes, ExecuteAll;
  }

  ghost predicate RejectedAt(plus: Plus, st: Store, items: seq<Item>, i: nat)
    requires i < |items|
  {
    Rejects(plus, ExecuteAll(plus, st, items[..i]), items[i])
  }

  /** Every item up to `n` is accepted or in error, once, as one-at-a-time execution decides. */
  ghost predicate Verdicts(accepted: seq<nat>, errors: seq<nat>, plus: Plus, st: Store, items: seq<Item>, n: nat)
    requires n <= |items|
  {
    && |accepted| + |errors| == n
    && (forall i, j :: 0 <= i < j < |accepted| ==> accepted[i] < accepted[j])
    && (forall i, j :: 0 <= i < j < |errors| ==> errors[i] < errors[j])
    && (forall i :: i in accepted ==> i < n && !RejectedAt(plus, st, items, i))
    && (forall i :: i in errors ==> i < n && RejectedAt(plus, st, items, i))
    && (forall i :: 0 <= i < n ==> i in accepted || i in errors)
  }

  lemma OneMoreVerdict(accepted: seq<nat>, errors: seq<nat>, plus: Plus, st: Store, items: seq<Item>, n: nat)
    requires n < |items| && Verdicts(accepted, errors, plus, st, items, n)
    ensures if RejectedAt(plus, st, items, n)
            then Verdicts(accepted, errors + [n], plus, st, items, n + 1)
            else Verdicts(accepted + [n], errors, plus, st, items, n + 1)
  {
    hide RejectedAt;
    assert forall i :: 0 <= i < |accepted| ==> accepted[i] in accepted;
    assert forall i :: 0 <= i < |errors| ==> errors[i] in errors;
  }

  /** The batch's store: one-at-a-time execution, and the stale rows whose scores were only passed through. */
  ghost function Batched(plus: Plus, st: Store, items: seq<Item>): Store {
    var here := ExecuteAll(plus, st, items);
    here.(sorted := here.sorted + PassedRows(plus, st, items))
  }

  /** The staging callback over the whole batch. */
  method StageAll(plus: Plus, st: Store, items: seq<Item>) returns (out: Store, accepted: seq<nat>, errors: seq<nat>)
    ensures out == Batched(plus, st, items) && ExecuteAll(plus, st, items).sorted !! PassedRows(plus, st, items)
    ensures Verdicts(accepted, errors, plus, st, items, |items|)
  {
    hide Rejects, Execute, Applied, Longer, OldScores, Score, Follows, Tracks, PassedRows, Initials, Replaced;
    var scores: Tracked := map[];
    var staged := st;
    ghost var gone: Trail := map[];
    accepted, errors := [], [];
    NothingTracked(plus, st);
    assert items[..0] == [];
    for n := 0 to |items|
      invariant Verdicts(accepted, errors, plus, st, items, n)
      invariant var here := ExecuteAll(plus, st, items[..n]);
                && Tracks(scores, st, here, gone) && Follows(plus, st, items[..n], here, gone)
                && staged == here.(scores := st.scores, sorted := st.sorted)
    {
      hide Verdicts;
      ghost var here := ExecuteAll(plus, st, items[..n]);
      assert items[..n + 1] == items[..n] + [items[n]];
      ExecuteNext(plus, st, items[..n], items[n]);
      FollowsNext(plus, st, items[..n], items[n], here, gone);
      var failed;
      scores, staged, failed, gone := StageOne(plus, st, scores, staged, items[n], here, gone);
      OneMoreVerdict(accepted, errors, plus, st, items, n);
      if failed { errors := errors + [n]; } else { accepted := accepted + [n]; }
    }
    assert items[..|items|] == items;
    BatchKeepsPassed(plus, st, items, scores, gone);
    TracksScores(scores, st, ExecuteAll(plus, st, items), gone);
    out := WriteScores(st, staged, scores);
  }

  lemma TracksScores(scores: Tracked, st: Store, here: Store, gone: Trail)
    requires Tracks(scores, st, here, gone)
    ensures here.scores == st.scores + Final(scores)
  {}

  lemma NothingTracked(plus: Plus, st: Store)
    ensures ExecuteAll(plus, st, []) == st && Tracks(map[], st, st, map[]) && Follows(plus, st, [], st, map[])
  {
    hide Score;
    assert Final(map[]) == map[];
    NothingReplaced(st);
    forall e, v ensures Passes(plus, st, [], e, v) <==> v == Score(st, e) {
      assert ScoreAt(plus, st, [], 0, e) == Score(st, e);
    }
  }

  method StageOne(plus: Plus, st: Store, scores: Tracked, staged: Store, q: Item, ghost here: Store, ghost gone: Trail)
    returns (scores': Tracked, staged': Store, failed: bool, ghost gone': Trail)
    requires Tracks(scores, st, here, gone) && staged == here.(scores := st.scores, sorted := st.sorted)
    ensures var next := Execute(plus, here, q);
            && Tracks(scores', st, next, gone')
            && staged' == next.(scores := st.scores, sorted := st.sorted)
    ensures gone' == if !Rejects(plus, here, q) && !Applied(here, q) then Longer(gone, OldScores(here, Credited(q)))
            else gone
    ensures failed <==> Rejects(plus, here, q)
  {
    hide Score, Tracks, Longer, OldScores;
    scores', staged', gone' := scores, staged, gone;
    if !Acceptable(q) { return scores, staged, true, gone; }
    if Applied(staged, q) { return scores, staged, false, gone; }
    var finite, next;
    scores', finite, next := Propose(plus, st, scores, q, here, gone);
    failed := !finite;
    if finite {
      UpdateTracks(plus, scores', st, here, gone, q);
      gone' := Longer(gone, OldScores(here, Credited(q)));
      scores' := Update(scores', next);
      staged' := StageEvent(staged, q.metric, q.ts, Event(q.value, q.tags));
      if q.operation.Some? { staged' := staged'.(receipts := staged.receipts + {q.operation.value}); }
    }
  }

  /**
    executeWriteBatch: one commit for the whole batch; if it fails nothing is acknowledged. The store is
    that of one-at-a-time execution, except that sorted rows left over from older data stay when their
    score was only passed through.
    */
  method ExecuteWriteBatch(plus: Plus, st: Store, items: seq<Item>, commits: bool) returns (r: BatchResult, st': Store)
    ensures st' == if commits then Batched(plus, st, items) else st
    ensures commits ==> (st' == ExecuteAll(plus, st, items) <==> PassedRows(plus, st, items) == {})
    ensures r.failed == |r.errors| && r.accepted + r.failed == |items| && r.ok == (r.failed == 0)
    ensures forall i :: i in r.errors ==> i < |items|
    ensures forall i, j :: 0 <= i < j < |r.errors| ==> r.errors[i] != r.errors[j]
    ensures commits ==> forall i :: 0 <= i < |items| ==>
              (i in r.errors <==> RejectedAt(plus, st, items, i))
    ensures !commits ==> r.failed == |items|
    ensures Indexed(st) ==> Indexed(st')
    ensures commits ==> Accumulates(plus, st, items, st')
  {
    hide RejectedAt, ExecuteAll, PassedRows, Score, Accumulated, ValuesFor, Indexed, Accumulates;
    BatchAccumulates(plus, st, items);
    if Indexed(st) {
      ExecuteAllIndexed(plus, st, items);
      SameIndex(ExecuteAll(plus, st, items), Batched(plus, st, items), st);
    }
    var out, accepted, errors := StageAll(plus, st, items);
    if commits {
      LeftIsDifferent(ExecuteAll(plus, st, items), PassedRows(plus, st, items));
      return BatchResult(errors == [], |accepted|, |errors|, errors), out;
    }
    var all := accepted + errors;
    forall i, j | 0 <= i < j < |all| ensures all[i] != all[j] {
      assert all[i] in (if i < |accepted| then accepted else errors)
        && all[j] in (if j < |accepted| then accepted else errors);
    }
    r, st' := BatchResult(all == [], 0, |all|, all), st;
  }

  /** Every entity with a score had one or was written, and its score is the sum. */
  ghost predicate Accumulates(plus: Plus, st: Store, items: seq<Item>, st': Store) {
    && (forall e :: e in st'.scores <==> e in st.scores || ValuesFor(plus, st, items, e) != [])
    && (forall e :: e in st'.scores ==> st'.scores[e] == Accumulated(plus, Score(st, e), ValuesFor(plus, st, items, e)))
  }

  lemma BatchAccumulates(plus: Plus, st: Store, items: seq<Item>)
    ensures Accumulates(plus, st, items, Batched(plus, st, items))
  {
    hide Accumulated, ValuesFor, ExecuteAll, PassedRows;
    var st' := Batched(plus, st, items);
    forall e
      ensures e in st'.scores <==> e in st.scores || ValuesFor(plus, st, items, e) != []
      ensures e in st'.scores ==> st'.scores[e] == Accumulated(plus, Score(st, e), ValuesFor(plus, st, items, e))
    {
      ScoresAccumulate(plus, st, items, e);
    }
  }

  lemma LeftIsDifferent(here: Store, kept: set<ScoreRow>)
    requires here.sorted !! kept
    ensures here.(sorted := here.sorted + kept) == here <==> kept == {}
  {
    assert here.(sorted := here.sorted + kept) == here ==> here.sorted + kept == here.sorted;
    assert forall r :: r in kept ==> r in here.sorted + kept;
  }

  // ---- The same score as the lookup's ----

  /** BoardMetric. */
  function BoardName(e: Entity): string { if e.board == "" then e.metric else e.metric + [SEPARATOR] + e.board }

  const SEPARATOR := 31 as char

  /** The parser refuses metrics that contain the separator. */
  predicate Plain(e: Entity) { SEPARATOR !in e.metric }

  /** The entity index and the rows of every board in key order, as the lookup sees them. */
  ghost predicate Lists(db: L.Scores, st: Store) {
    && (forall e :: Plain(e) ==> ((BoardName(e), e.id) in db.index <==> e in st.scores))
    && (forall e :: Plain(e) && e in st.scores ==> db.index[(BoardName(e), e.id)] == st.scores[e])
    && (forall e, v :: Plain(e) ==> (ScoreRow(e, v) in st.sorted <==> L.Row(e.id, v) in db.Board(BoardName(e))))
    && (forall b :: InKeyOrder(db.Board(b)))
  }

  /** The metric ends where the name ends or its separator stands. */
  lemma NameSplits(e: Entity, n: string)
    requires Plain(e) && n == BoardName(e)
    ensures |e.metric| <= |n| && (|e.metric| < |n| ==> n[|e.metric|] == SEPARATOR)
    ensures forall i :: 0 <= i < |e.metric| ==> n[i] != SEPARATOR
  {
    forall i | 0 <= i < |e.metric| ensures n[i] != SEPARATOR { assert n[i] == e.metric[i] && e.metric[i] in e.metric; }
  }

  /** Different boards have different names. */
  lemma BoardNameInjective(e: Entity, f: Entity)
    requires Plain(e) && Plain(f) && BoardName(e) == BoardName(f)
    ensures e.metric == f.metric && e.board == f.board
  {
    var n := BoardName(e);
    NameSplits(e, n);
    NameSplits(f, n);
    assert |e.metric| == |f.metric|;
    assert n[..|e.metric|] == e.metric && n[..|f.metric|] == f.metric;
    if e.board != "" { assert n[|e.metric| + 1..] == e.board; }
    if f.board != "" { assert n[|f.metric| + 1..] == f.board; }
  }

  /** What the lookup sees of a store with one score, on whatever board. */
  lemma OneScoreListed(e: Entity, v: Float)
    requires Plain(e)
    ensures Lists(L.Scores(map[(BoardName(e), e.id) := v], map[BoardName(e) := [L.Row(e.id, v)]]),
                  Store(map[], {}, map[e := v], {ScoreRow(e, v)}, {}))
  {
    hide BoardName;
    forall f | Plain(f) && BoardName(f) == BoardName(e) && f.id == e.id ensures f == e { BoardNameInjective(f, e); }
  }

  ghost predicate InKeyOrder(rows: seq<L.Row>) {
    forall i, j :: 0 <= i < j < |rows| && rows[i].entity == rows[j].entity ==> Ahead(rows[i].value, rows[j].value)
  }

  lemma {:induction false} FirstIsAhead(rows: seq<L.Row>, id: string)
    requires InKeyOrder(rows)
    ensures var row := L.First(rows, id);
            if row.None? then forall v :: L.Row(id, v) !in rows
            else L.Row(id, row.value) in rows && forall v :: L.Row(id, v) in rows ==> Ahead(row.value, v)
  {
    if rows != [] {
      assert rows == [rows[0]] + rows[1..];
      if rows[0].entity == id {
        forall v | L.Row(id, v) in rows ensures Ahead(rows[0].value, v) {
          var j :| 0 <= j < |rows| && rows[j] == L.Row(id, v);
        }
      } else {
        FirstIsAhead(rows[1..], id);
      }
    }
  }

  /** The score one-at-a-time execution and the batch start from is what Leaderboard.Get returns. */
  lemma ScoreIsGet(st: Store, db: L.Scores, e: Entity)
    requires Lists(db, st) && Plain(e)
    ensures Score(st, e) == L.Get(db, BoardName(e), e.id)
  {
    var rows, legacy := db.Board(BoardName(e)), ValuesOf(st.sorted, e);
    FirstIsAhead(rows, e.id);
    if e !in st.scores {
      forall v ensures v in legacy <==> L.Row(e.id, v) in rows {
        assert ScoreRow(e, v) in st.sorted <==> L.Row(e.id, v) in rows;
        if v in legacy { var r :| r in st.sorted && r.entity == e && r.value == v; assert r == ScoreRow(e, v); }
      }
    }
  }
}
