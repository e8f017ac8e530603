/** Who gets which rejections of a shared transaction: the arithmetic of offsets, and what it means over runs. */
module CoalescedShares {
  import opened Options
  import opened Coalescer

  // ---- Positions in the shared batch ----

  /** A request's offset points at its own items in the shared batch, so its local indices name only them. */
  lemma {:induction false} OffsetFindsOwnItems(active: seq<Id>, items: map<Id, seq<Item>>, id: Id, i: nat)
    requires id in active && id in items && i < |items[id]|
    ensures var at := Global(Offset(active, items, id), i);
            at < |Joined(active, items)| && Joined(active, items)[at] == items[id][i]
  {
    if active[0] != id {
      OffsetFindsOwnItems(active[1..], items, id, i);
    }
  }

  /** Different requests own different positions of the shared batch. */
  lemma {:induction false} OffsetsDisjoint(active: seq<Id>, items: map<Id, seq<Item>>, x: Id, i: nat, y: Id, j: nat)
    requires x in active && y in active && x != y && x in items && y in items && i < |items[x]| && j < |items[y]|
    ensures Global(Offset(active, items, x), i) != Global(Offset(active, items, y), j)
  {
    if active[0] != x && active[0] != y {
      OffsetsDisjoint(active[1..], items, x, i, y, j);
    }
  }

  lemma {:induction false} OffsetEnds(active: seq<Id>, items: map<Id, seq<Item>>, k: nat)
    requires k < |active| && (forall i, j :: 0 <= i < j < |active| ==> active[i] != active[j])
    ensures k + 1 < |active| ==>
            Offset(active, items, active[k + 1]) == Offset(active, items, active[k]) + Size(items, active[k])
  {
    if k + 1 < |active| {
      if k == 0 {
        assert active[1..][0] == active[1];
      } else {
        OffsetEnds(active[1..], items, k - 1);
      }
    }
  }

  /** One request's share, item by item. */
  method Share(rejected: map<nat, nat>, offset: nat, count: nat) returns (local: map<nat, nat>)
    ensures local == Local(rejected, offset, count)
  {
    local := map[];
    for i := 0 to count
      invariant local == Local(rejected, offset, i)
    {
      if Global(offset, i) in rejected { local := local[i := rejected[Global(offset, i)]]; }
    }
  }

  /** The loop that hands out the rejections of the shared transaction. */
  method Distribute(active: seq<Id>, items: map<Id, seq<Item>>, rejected: map<nat, nat>)
    returns (locals: map<Id, map<nat, nat>>)
    requires forall i, j :: 0 <= i < j < |active| ==> active[i] != active[j]
    requires forall id :: id in active ==> id in items
    ensures forall id :: id in locals <==> id in active
    ensures forall id :: id in active ==> locals[id] == Local(rejected, Offset(active, items, id), |items[id]|)
  {
    hide Local;
    locals := map[];
    var offset := 0;
    for k := 0 to |active|
      invariant forall id :: id in locals <==> id in active[..k]
      invariant forall id :: id in active[..k] ==> locals[id] == Local(rejected, Offset(active, items, id), |items[id]|)
      invariant k < |active| ==> offset == Offset(active, items, active[k])
    {
      var id := active[k];
      assert active[..k + 1] == active[..k] + [id];
      var local := Share(rejected, offset, |items[id]|);
      locals := locals[id := local];
      OffsetEnds(active, items, k);
      offset := offset + |items[id]|;
    }
    assert active[..|active|] == active;
  }

  // ---- Over runs ----

  /** Where the transaction's batch has the i-th item of a request. */
  function Position(t: Transaction, items: map<Id, seq<Item>>, id: Id, i: nat): nat {
    Global(Offset(t.active, items, id), i)
  }

  /** The outcome tells exactly which of the request's own items the transaction rejected, and why. */
  ghost predicate OwnShare(t: Transaction, items: map<Id, seq<Item>>, id: Id, o: Outcome) {
    && o.Ran? && o.failed == t.failed && id in t.active && id in items
    && (forall i: nat :: i in o.rejected <==> i < |items[id]| && Position(t, items, id, i) in t.rejected)
    && (forall i: nat :: i in o.rejected ==> o.rejected[i] == t.rejected[Position(t, items, id, i)])
    && (forall i: nat :: i < |items[id]| ==>
          Position(t, items, id, i) < |t.batch| && t.batch[Position(t, items, id, i)] == items[id][i])
  }

  ghost predicate Shared(s: State, id: Id) {
    id in s.results && exists k :: 0 <= k < |s.transactions| && OwnShare(s.transactions[k], s.items, id, s.results[id])
  }

  ghost predicate SharesInv(s: State) {
    && (forall k :: 0 <= k < |s.transactions| ==> forall id :: id in s.transactions[k].active ==> id in s.touched)
    && (forall j, k :: 0 <= j < k < |s.transactions| ==>
          forall id :: id in s.transactions[j].active ==> id !in s.transactions[k].active)
    && (forall id :: id in s.results && s.results[id].Ran? ==> Shared(s, id))
  }

  lemma {:induction false} ActiveMembers(wave: seq<Id>, gone: set<Id>)
    ensures forall id :: id in Active(wave, gone) <==> id in wave && id !in gone
  {
    if wave != [] {
      assert wave == [wave[0]] + wave[1..];
      ActiveMembers(wave[1..], gone);
    }
  }

  /** What Execute answers is the request's own share of the transaction it records. */
  lemma AnswerIsOwnShare(active: seq<Id>, items: map<Id, seq<Item>>, rejected: map<nat, nat>, failed: bool, id: Id)
    requires id in active && id in items
    ensures OwnShare(Transaction(active, Joined(active, items), rejected, failed), items, id,
                     Ran(Local(rejected, Offset(active, items, id), Size(items, id)), failed))
  {
    hide Offset, Joined;
    forall i: nat | i < |items[id]|
      ensures var at := Global(Offset(active, items, id), i);
              at < |Joined(active, items)| && Joined(active, items)[at] == items[id][i]
    {
      OffsetFindsOwnItems(active, items, id, i);
    }
  }

  /** No request of a wave was in a transaction before, or has a result. */
  lemma WaveIsNew(s: State, onLeft: bool, id: Id)
    requires Inv(s) && id in Worker(s, onLeft)
    ensures id !in s.results && id !in s.touched && id in s.items
  {
    assert Places(s, id) <= 1;
    assert Occurs(Worker(s, onLeft), id) > 0;
    hide Occurs;
  }

  lemma ExecuteTransactions(s: State, e: Event)
    requires SharesInv(s) && Inv(s) && e.Execute? && Enabled(s, e)
    ensures var T := Next(s, e).transactions;
            && (forall k :: 0 <= k < |T| ==> forall id :: id in T[k].active ==> id in Next(s, e).touched)
            && (forall j, k :: 0 <= j < k < |T| ==> forall id :: id in T[j].active ==> id !in T[k].active)
  {
    hide Inv, AnswerAll, Joined, Active, Shared;
    var wave := Worker(s, e.onLeft);
    ActiveMembers(wave, e.gone);
    forall id | id in wave ensures id !in s.touched { WaveIsNew(s, e.onLeft, id); }
  }

  lemma ExecuteShares(s: State, e: Event, id: Id)
    requires SharesInv(s) && Inv(s) && e.Execute? && Enabled(s, e)
    requires id in Next(s, e).results && Next(s, e).results[id].Ran?
    ensures Shared(Next(s, e), id)
  {
    var s', wave := Next(s, e), Worker(s, e.onLeft);
    hide Inv, Joined, Active, Local, Offset, OwnShare;
    if id in wave {
      WaveIsNew(s, e.onLeft, id);
      ActiveMembers(wave, e.gone);
      AnswerIsOwnShare(Active(wave, e.gone), s.items, e.rejected, e.failed, id);
      assert OwnShare(s'.transactions[|s.transactions|], s'.items, id, s'.results[id]);
    } else {
      var k :| 0 <= k < |s.transactions| && OwnShare(s.transactions[k], s.items, id, s.results[id]);
      assert OwnShare(s'.transactions[k], s'.items, id, s'.results[id]);
    }
  }

  lemma ExecuteKeepsShares(s: State, e: Event)
    requires SharesInv(s) && Inv(s) && e.Execute? && Enabled(s, e)
    ensures SharesInv(Next(s, e))
  {
    ExecuteTransactions(s, e);
    hide Inv, Next, Enabled, Shared;
    forall id | id in Next(s, e).results && Next(s, e).results[id].Ran? ensures Shared(Next(s, e), id) {
      ExecuteShares(s, e, id);
    }
  }

  lemma {:induction false} OffsetStays(active: seq<Id>, items: map<Id, seq<Item>>, added: Id, own: seq<Item>, id: Id)
    requires added !in items && forall x :: x in active ==> x in items
    ensures Offset(active, items[added := own], id) == Offset(active, items, id)
  {
    if active != [] && active[0] != id {
      assert active[0] in active;
      OffsetStays(active[1..], items, added, own, id);
    }
  }

  lemma ShareStays(t: Transaction, items: map<Id, seq<Item>>, added: Id, own: seq<Item>, id: Id, o: Outcome)
    requires OwnShare(t, items, id, o) && added !in items && forall x :: x in t.active ==> x in items
    ensures OwnShare(t, items[added := own], id, o)
  {
    hide Offset;
    var more := items[added := own];
    OffsetStays(t.active, items, added, own, id);
    assert more[id] == items[id];
    forall i: nat ensures Position(t, more, id, i) == Position(t, items, id, i) {}
  }

  lemma TouchedKnown(s: State, id: Id)
    requires Inv(s) && id in s.touched
    ensures id in s.items
  {
    assert Places(s, id) > 0;
  }

  lemma SubmitKeepsShares(s: State, e: Event)
    requires SharesInv(s) && Inv(s) && e.Submit? && Enabled(s, e)
    ensures SharesInv(Next(s, e))
  {
    hide Inv, OwnShare;
    var s' := Next(s, e);
    forall id | id in s'.results && s'.results[id].Ran? ensures Shared(s', id) {
      var k :| 0 <= k < |s.transactions| && OwnShare(s.transactions[k], s.items, id, s.results[id]);
      forall x | x in s.transactions[k].active ensures x in s.items { TouchedKnown(s, x); }
      ShareStays(s.transactions[k], s.items, e.id, e.own, id, s.results[id]);
      assert OwnShare(s'.transactions[k], s'.items, id, s'.results[id]);
    }
  }

  /** Every other step answers without a transaction. */
  lemma OtherAnswers(s: State, e: Event)
    requires Enabled(s, e) && !e.Submit? && !e.Execute?
    ensures var s' := Next(s, e);
            && s'.transactions == s.transactions && s'.touched == s.touched && s'.items == s.items
            && forall id :: id in s'.results && s'.results[id].Ran? ==>
               id in s.results && s.results[id] == s'.results[id]
  {
    hide Sizes, Active, AnswerAll, Answer;
    AnswerPlain(s.results, Answered(s, e), Cancelled);
    AnswerPlain(s.results, Answered(s, e), CallerGone);
  }

  lemma AnswerPlain(results: map<Id, Outcome>, ids: seq<Id>, o: Outcome)
    requires !o.Ran?
    ensures var answered := Answer(results, ids, o);
            forall id :: id in answered && answered[id].Ran? ==> id in results && results[id] == answered[id]
  {}

  lemma StepKeepsShares(s: State, e: Event)
    requires SharesInv(s) && Inv(s) && Enabled(s, e)
    ensures SharesInv(Next(s, e))
  {
    hide Inv, Enabled, Next, OwnShare;
    if e.Submit? {
      SubmitKeepsShares(s, e);
    } else if e.Execute? {
      ExecuteKeepsShares(s, e);
    } else {
      OtherAnswers(s, e);
      var s' := Next(s, e);
      forall id | id in s'.results && s'.results[id].Ran? ensures Shared(s', id) { assert Shared(s, id); }
    }
  }

  lemma {:induction false} RunKeepsShares(s: State, events: seq<Event>)
    requires SharesInv(s) && Inv(s) && Legal(s, events)
    ensures SharesInv(Run(s, events))
    decreases |events|
  {
    hide Inv, SharesInv, Enabled, Next;
    if events != [] {
      StepKeepsInv(s, events[0]);
      StepKeepsShares(s, events[0]);
      RunKeepsShares(Next(s, events[0]), events[1..]);
    }
  }

  lemma ReturnedIsResult(s: State, id: Id)
    requires Inv(s) && id in s.returned && s.returned[id].Ran?
    ensures id in s.results && s.results[id] == s.returned[id]
  {
    hide Places;
  }

  /**
    In every run a submit that returns from a transaction returns exactly the rejections of its own
    items in the one transaction that ran them.
    */
  lemma ReturnsOwnShare(s: State, events: seq<Event>, id: Id) returns (k: nat)
    requires Init(s) && Legal(s, events) && id in Run(s, events).returned && Run(s, events).returned[id].Ran?
    ensures var t := Run(s, events);
            && k < |t.transactions| && OwnShare(t.transactions[k], t.items, id, t.returned[id])
            && forall j :: 0 <= j < |t.transactions| && j != k ==> id !in t.transactions[j].active
  {
    hide Inv, OwnShare, Legal, Run;
    InitInv(s);
    RunKeepsInv(s, events);
    RunKeepsShares(s, events);
    var t := Run(s, events);
    ReturnedIsResult(t, id);
    assert Shared(t, id);
    k :| 0 <= k < |t.transactions| && OwnShare(t.transactions[k], t.items, id, t.results[id]);
    InActive(t.transactions[k], t.items, id, t.results[id]);
  }

  lemma InActive(t: Transaction, items: map<Id, seq<Item>>, id: Id, o: Outcome)
    requires OwnShare(t, items, id, o)
    ensures id in t.active
  {}
}
