/** One page of a windowed leaderboard: a bounded heap of candidates, or a sort of the whole board. */
module HeapPage {
  import opened ByteStrings
  import opened MemberCodec
  import opened Sequences

  datatype Entry = Entry(entity: Bytes, value: Float)

  /** Higher value first, then the smaller entity. */
  predicate Before(a: Entry, b: Entry) {
    if a.value.Rank() != b.value.Rank() then a.value.Rank() > b.value.Rank() else Less(a.entity, b.entity)
  }

  lemma BeforeTotal(a: Entry, b: Entry)
    ensures !(Before(a, b) && Before(b, a)) && !Before(a, a)
    ensures a.entity != b.entity ==> Before(a, b) || Before(b, a)
  {
    LessTotal(a.entity, b.entity);
    LessTotal(a.entity, a.entity);
  }

  lemma BeforeTransitive(a: Entry, b: Entry, c: Entry)
    requires Before(a, b) && Before(b, c)
    ensures Before(a, c)
  {
    if Less(a.entity, b.entity) && Less(b.entity, c.entity) { LessTransitive(a.entity, b.entity, c.entity); }
  }

  /** Not being before is transitive too, so a heap's root is the worst of all. */
  lemma NotBeforeTransitive(a: Entry, b: Entry, c: Entry)
    requires !Before(a, b) && !Before(b, c)
    ensures !Before(a, c)
  {
    LessTotal(a.entity, b.entity);
    LessTotal(b.entity, c.entity);
    LessTotal(a.entity, c.entity);
    if Less(b.entity, a.entity) && Less(c.entity, b.entity) { LessTransitive(c.entity, b.entity, a.entity); }
  }

  // ---- The heap, worst candidate at the root ----

  function Parent(c: nat): (p: nat)
    requires c > 0
    ensures p < c
  {
    (c - 1) / 2
  }

  /** A child is not worse than its parent. */
  predicate Ok(h: seq<Entry>, c: nat)
    requires 0 < c < |h|
  {
    !Before(h[Parent(c)], h[c])
  }

  ghost predicate HeapFrom(h: seq<Entry>, lo: nat) { forall c: nat :: 0 < c < |h| && Parent(c) >= lo ==> Ok(h, c) }

  lemma {:induction false} RootIsWorst(h: seq<Entry>, c: nat)
    requires HeapFrom(h, 0) && c < |h|
    ensures !Before(h[0], h[c])
  {
    if c == 0 {
      BeforeTotal(h[0], h[0]);
    } else {
      RootIsWorst(h, Parent(c));
      assert Ok(h, c);
      NotBeforeTransitive(h[0], h[Parent(c)], h[c]);
    }
  }

  /** Sifting down from `lo` has reached `i`: everything but the children of `i` is in order. */
  ghost predicate Sifting(h: seq<Entry>, lo: nat, i: nat) {
    && (forall c: nat :: 0 < c < |h| && Parent(c) >= lo && Parent(c) != i ==> Ok(h, c))
    && (forall c: nat :: 0 < c < |h| && Parent(c) == i && i > lo ==> !Before(h[Parent(i)], h[c]))
  }

  function Swapped(h: seq<Entry>, i: nat, j: nat): seq<Entry>
    requires i < |h| && j < |h|
  {
    h[i := h[j]][j := h[i]]
  }

  function Left(i: nat): nat { 2 * i + 1 }

  lemma ParentOf(c: nat, i: nat)
    requires c > 0
    ensures Parent(c) == i <==> c == Left(i) || c == Left(i) + 1
  {}

  /** Moving the worse child up. */
  lemma SiftStep(h: seq<Entry>, lo: nat, i: nat, j: nat)
    requires lo <= i < j < |h| && Parent(j) == i && Sifting(h, lo, i) && Before(h[i], h[j])
    requires forall c: nat :: 0 < c < |h| && Parent(c) == i ==> !Before(h[j], h[c])
    requires i > lo ==> Parent(i) >= lo
    ensures Sifting(Swapped(h, i, j), lo, j)
  {
    var h' := Swapped(h, i, j);
    forall c: nat | 0 < c < |h| && Parent(c) >= lo && Parent(c) != j ensures Ok(h', c) {
      SiftStepOk(h, lo, i, j, c);
    }
    forall c: nat | 0 < c < |h| && Parent(c) == j ensures !Before(h'[i], h'[c]) {
      assert Ok(h, c);
    }
  }

  lemma SiftStepOk(h: seq<Entry>, lo: nat, i: nat, j: nat, c: nat)
    requires lo <= i < j < |h| && Parent(j) == i && Sifting(h, lo, i) && Before(h[i], h[j])
    requires forall c: nat :: 0 < c < |h| && Parent(c) == i ==> !Before(h[j], h[c])
    requires i > lo ==> Parent(i) >= lo
    requires 0 < c < |h| && Parent(c) >= lo && Parent(c) != j
    ensures Ok(Swapped(h, i, j), c)
  {
    if Parent(c) == i {
      BeforeTotal(h[i], h[j]);
    } else if c == i {
      assert !Before(h[Parent(i)], h[j]);
    } else {
      assert Ok(h, c);
    }
  }

  lemma SwapKeeps(h: seq<Entry>, i: nat, j: nat)
    requires i < |h| && j < |h|
    ensures multiset(Swapped(h, i, j)) == multiset(h)
  {}

  lemma SiftEnds(h: seq<Entry>, lo: nat, i: nat, j: nat)
    requires lo <= i < |h| && Sifting(h, lo, i)
    requires Left(i) < |h| ==>
               i < j < |h| && !Before(h[i], h[j]) && forall c: nat :: 0 < c < |h| && Parent(c) == i ==>
                 !Before(h[j], h[c])
    ensures HeapFrom(h, lo)
  {
    forall c: nat | 0 < c < |h| && Parent(c) >= lo ensures Ok(h, c) {
      ParentOf(c, i);
      if Parent(c) == i { NotBeforeTransitive(h[i], h[j], h[c]); }
    }
  }

  /** down of container/heap: restores the order below `lo`, by swaps. */
  method Down(a: array<Entry>, lo: nat)
    requires lo < a.Length && Sifting(a[..], lo, lo)
    modifies a
    ensures HeapFrom(a[..], lo) && multiset(a[..]) == multiset(old(a[..]))
  {
    hide Before, Sifting, HeapFrom;
    var i, j := lo, lo;
    while Left(i) < a.Length
      invariant lo <= i < a.Length && (i > lo ==> Parent(i) >= lo)
      invariant Sifting(a[..], lo, i) && multiset(a[..]) == multiset(old(a[..]))
    {
      j := WorseChild(a, i);
      ghost var h := a[..];
      if !Before(a[i], a[j]) {
        SiftEnds(h, lo, i, j);
        return;
      }
      SiftStep(h, lo, i, j);
      SwapKeeps(h, i, j);
      a[i], a[j] := a[j], a[i];
      assert a[..] == Swapped(h, i, j);
      i := j;
    }
    SiftEnds(a[..], lo, i, i);
  }

  method WorseChild(a: array<Entry>, i: nat) returns (j: nat)
    requires Left(i) < a.Length
    ensures i < j < a.Length && Parent(j) == i
    ensures forall c: nat :: 0 < c < a.Length && Parent(c) == i ==> !Before(a[..][j], a[..][c])
  {
    j := Left(i);
    if j + 1 < a.Length && Before(a[j], a[j + 1]) { j := j + 1; }
    forall c: nat | 0 < c < a.Length && Parent(c) == i ensures !Before(a[..][j], a[..][c]) {
      ParentOf(c, i);
      BeforeTotal(a[Left(i)], a[j]);
      BeforeTotal(a[j], a[j]);
    }
  }

  /** Init of container/heap. */
  method Heapify(a: array<Entry>)
    modifies a
    ensures HeapFrom(a[..], 0) && multiset(a[..]) == multiset(old(a[..]))
  {
    hide Before;
    var i := a.Length / 2;
    while i > 0
      invariant 0 <= i <= a.Length / 2
      invariant HeapFrom(a[..], i) && multiset(a[..]) == multiset(old(a[..]))
    {
      i := i - 1;
      SiftBegins(a[..], i);
      Down(a, i);
    }
  }

  lemma SiftBegins(h: seq<Entry>, i: nat)
    requires HeapFrom(h, i + 1)
    ensures Sifting(h, i, i)
  {}

  lemma RootReplaced(h: seq<Entry>, e: Entry)
    requires h != [] && HeapFrom(h, 0)
    ensures Sifting(h[0 := e], 0, 0)
  {
    forall c: nat | 0 < c < |h| && Parent(c) != 0 ensures Ok(h[0 := e], c) { assert Ok(h, c); }
  }

  // ---- The best k ----

  /** Distinct entities. */
  ghost predicate Unique(s: seq<Entry>) { forall i, j :: 0 <= i < j < |s| ==> s[i].entity != s[j].entity }

  /** `kept` are the best entries of `seen`, each once. */
  ghost predicate Best(seen: seq<Entry>, kept: seq<Entry>) {
    && (forall e :: multiset(kept)[e] <= 1)
    && (forall e :: e in kept ==> e in seen)
    && (forall e, s :: e in seen && e !in kept && s in kept ==> Before(s, e))
  }

  lemma BestPermutes(seen: seq<Entry>, kept: seq<Entry>, other: seq<Entry>)
    requires Best(seen, kept) && multiset(kept) == multiset(other)
    ensures Best(seen, other)
  {
    hide Before;
    forall e ensures e in other <==> e in kept { assert e in multiset(other) <==> e in multiset(kept); }
  }

  lemma DistinctEntries(s: seq<Entry>, a: Entry, b: Entry)
    requires Unique(s) && a in s && b in s && a != b
    ensures a.entity != b.entity
  {
    var i :| 0 <= i < |s| && s[i] == a;
    var j :| 0 <= j < |s| && s[j] == b;
    assert i < j || j < i;
  }

  /** Everything else in the heap is better than the root. */
  lemma BetterThanRoot(all: seq<Entry>, kept: seq<Entry>, s: Entry)
    requires Unique(all) && kept != [] && HeapFrom(kept, 0) && s in kept && s != kept[0]
             && (forall e :: e in kept ==> e in all)
    ensures Before(s, kept[0])
  {
    hide HeapFrom, Before;
    var c :| 0 <= c < |kept| && kept[c] == s;
    RootIsWorst(kept, c);
    DistinctEntries(all, s, kept[0]);
    BeforeTotal(s, kept[0]);
  }

  lemma KeepsRoot(all: seq<Entry>, seen: seq<Entry>, kept: seq<Entry>, x: Entry)
    requires Unique(all) && (forall e :: e in seen || e == x ==> e in all) && x !in seen
    requires kept != [] && HeapFrom(kept, 0) && Best(seen, kept) && !Before(x, kept[0])
    ensures Best(seen + [x], kept)
  {
    hide HeapFrom, Before;
    forall s | s in kept ensures Before(s, x) {
      DistinctEntries(all, x, kept[0]);
      BeforeTotal(x, kept[0]);
      if s != kept[0] {
        BetterThanRoot(all, kept, s);
        BeforeTransitive(s, kept[0], x);
      }
    }
  }

  lemma ReplacesRoot(all: seq<Entry>, seen: seq<Entry>, kept: seq<Entry>, x: Entry)
    requires Unique(all) && (forall e :: e in seen || e == x ==> e in all) && x !in seen
    requires kept != [] && HeapFrom(kept, 0) && Best(seen, kept) && Before(x, kept[0])
    ensures Best(seen + [x], kept[0 := x])
  {
    hide HeapFrom, Before;
    var root, rest := kept[0], kept[1..];
    var now := [x] + rest;
    assert kept[0 := x] == now && kept == [root] + rest;
    assert multiset(kept) == multiset([root]) + multiset(rest) && multiset(now) == multiset([x]) + multiset(rest);
    assert x !in rest && root !in rest by { assert multiset(kept)[root] <= 1; }
    forall e ensures multiset(now)[e] <= 1 { assert multiset(kept)[e] <= 1; }
    forall e, s | e in seen + [x] && e !in now && s in now ensures Before(s, e) {
      if e == root {
        if s != x { BetterThanRoot(all, kept, s); }
      } else {
        assert e in seen && e !in kept && Before(root, e);
        if s == x { BeforeTransitive(x, root, e); }
      }
    }
  }

  /** A heap of k candidates over one pass. */
  method SelectBest(sums: seq<Entry>, k: nat) returns (kept: seq<Entry>)
    requires Unique(sums) && 0 < k <= |sums|
    ensures |kept| == k && Best(sums, kept)
  {
    hide Before, HeapFrom, Best, Unique;
    FrontUnique(sums, k);
    var a := new Entry[k](i requires 0 <= i < k => sums[i]);
    assert a[..] == sums[..k];
    BestOfSelf(sums[..k]);
    Heapify(a);
    BestPermutes(sums[..k], sums[..k], a[..]);
    for i := k to |sums|
      invariant HeapFrom(a[..], 0) && Best(sums[..i], a[..])
    {
      var x := sums[i];
      ghost var h := a[..];
      assert sums[..i + 1] == sums[..i] + [x];
      NewEntry(sums, i);
      if Before(x, a[0]) {
        ReplacesRoot(sums, sums[..i], h, x);
        RootReplaced(h, x);
        a[0] := x;
        assert a[..] == h[0 := x];
        Down(a, 0);
        BestPermutes(sums[..i + 1], h[0 := x], a[..]);
      } else {
        KeepsRoot(sums, sums[..i], h, x);
      }
    }
    assert sums[..|sums|] == sums;
    kept := a[..];
  }

  lemma FrontUnique(s: seq<Entry>, k: nat)
    requires Unique(s) && k <= |s|
    ensures Unique(s[..k])
  {}

  lemma NewEntry(s: seq<Entry>, i: nat)
    requires Unique(s) && i < |s|
    ensures s[i] !in s[..i]
  {}

  lemma BestOfSelf(s: seq<Entry>)
    requires Unique(s)
    ensures Best(s, s)
  {
    forall e ensures multiset(s)[e] <= 1 { CountOnce(s, e); }
  }

  lemma {:induction false} CountOnce(s: seq<Entry>, e: Entry)
    requires Unique(s)
    ensures multiset(s)[e] <= 1
  {
    if s != [] {
      var init, last := s[..|s| - 1], s[|s| - 1];
      assert s == init + [last];
      CountOnce(init, e);
      assert last !in init;
    }
  }

  // ---- The page ----

  ghost predicate InOrder(s: seq<Entry>) { forall i, j :: 0 <= i < j < |s| ==> Before(s[i], s[j]) }

  /** The whole board, sorted. */
  ghost predicate Sorts(full: seq<Entry>, sums: seq<Entry>) { InOrder(full) && forall e :: e in full <==> e in sums }

  function InsertEntry(s: seq<Entry>, x: Entry): (r: seq<Entry>)
    ensures forall e :: e in r <==> e == x || e in s
  {
    if s == [] then [x]
    else if Before(x, s[0]) then [x] + s
    else
      assert s == [s[0]] + s[1..];
      [s[0]] + InsertEntry(s[1..], x)
  }

  lemma {:induction false} InsertInOrder(s: seq<Entry>, x: Entry)
    requires InOrder(s) && forall e :: e in s ==> e.entity != x.entity
    ensures InOrder(InsertEntry(s, x)) && |InsertEntry(s, x)| == |s| + 1
  {
    hide Before;
    if s != [] {
      var r := InsertEntry(s, x);
      BeforeTotal(x, s[0]);
      if Before(x, s[0]) {
        forall j | 0 <= j < |s| ensures Before(x, s[j]) {
          if j > 0 { BeforeTransitive(x, s[0], s[j]); }
        }
      } else {
        var t := InsertEntry(s[1..], x);
        InsertInOrder(s[1..], x);
        assert s[0] in s;
        forall j | 0 <= j < |t| ensures Before(s[0], t[j]) {
          assert t[j] in t;
          if t[j] != x { var k :| 0 <= k < |s[1..]| && s[1..][k] == t[j]; }
        }
      }
    }
  }

  /** sort.Slice by leaderboardBefore. */
  function SortEntries(s: seq<Entry>): (r: seq<Entry>)
    ensures forall e :: e in r <==> e in s
  {
    if s == [] then []
    else
      assert s == s[..|s| - 1] + [s[|s| - 1]];
      InsertEntry(SortEntries(s[..|s| - 1]), s[|s| - 1])
  }

  lemma {:induction false} SortIsInOrder(s: seq<Entry>)
    requires Unique(s)
    ensures InOrder(SortEntries(s)) && |SortEntries(s)| == |s|
  {
    hide Before, InsertEntry;
    if s != [] {
      var init, last := s[..|s| - 1], s[|s| - 1];
      SortIsInOrder(init);
      forall e | e in SortEntries(init) ensures e.entity != last.entity {
        var k :| 0 <= k < |init| && init[k] == e;
        assert s[k] == e;
      }
      InsertInOrder(SortEntries(init), last);
    }
  }

  lemma {:induction false} InOrderSame(s: seq<Entry>, t: seq<Entry>)
    requires InOrder(s) && InOrder(t) && forall e :: e in s <==> e in t
    ensures s == t
  {
    hide Before;
    assert (s != [] ==> s[0] in t) && (t != [] ==> t[0] in s);
    if s != [] && t != [] {
      var i :| 0 <= i < |t| && t[i] == s[0];
      var j :| 0 <= j < |s| && s[j] == t[0];
      BeforeTotal(s[0], t[0]);
      assert s[0] == t[0];
      OnlyFirst(s);
      OnlyFirst(t);
      InOrderSame(s[1..], t[1..]);
      assert s == [s[0]] + s[1..] && t == [t[0]] + t[1..];
    }
  }

  lemma OnlyFirst(s: seq<Entry>)
    requires InOrder(s) && s != []
    ensures InOrder(s[1..]) && forall e :: e in s[1..] <==> e in s && e != s[0]
  {
    hide Before;
    assert s == [s[0]] + s[1..];
    forall j | 0 <= j < |s[1..]| ensures s[1..][j] != s[0] {
      BeforeTotal(s[0], s[j + 1]);
    }
  }

  function Others(full: seq<Entry>, kept: seq<Entry>): (r: seq<Entry>)
    ensures forall e :: e in r <==> e in full && e !in kept
  {
    if full == [] then []
    else
      assert full == [full[0]] + full[1..];
      (if full[0] in kept then [] else [full[0]]) + Others(full[1..], kept)
  }

  lemma {:induction false} OthersInOrder(full: seq<Entry>, kept: seq<Entry>)
    requires InOrder(full)
    ensures InOrder(Others(full, kept))
  {
    hide Before;
    if full != [] {
      var r := Others(full[1..], kept);
      OthersInOrder(full[1..], kept);
      forall j | 0 <= j < |r| ensures Before(full[0], r[j]) {
        assert r[j] in full[1..];
        var k :| 0 <= k < |full[1..]| && full[1..][k] == r[j];
        assert full[k + 1] == r[j];
      }
    }
  }

  /** The best entries, sorted, are the front of the sorted board. */
  lemma BestIsFront(sums: seq<Entry>, kept: seq<Entry>, sorted: seq<Entry>, full: seq<Entry>)
    requires Best(sums, kept) && Sorts(sorted, kept) && Sorts(full, sums)
    ensures |sorted| <= |full| && full[..|sorted|] == sorted
  {
    hide Before;
    var rest := Others(full, kept);
    OthersInOrder(full, kept);
    var joined := sorted + rest;
    forall i, j | 0 <= i < j < |joined| ensures Before(joined[i], joined[j]) {
      if i < |sorted| <= j {
        assert joined[i] in sorted && joined[j] in rest;
      }
    }
    InOrderSame(joined, full);
  }

  lemma KeptUnique(sums: seq<Entry>, kept: seq<Entry>)
    requires Unique(sums) && Best(sums, kept)
    ensures Unique(kept)
  {
    hide Before;
    forall i, j | 0 <= i < j < |kept| ensures kept[i].entity != kept[j].entity {
      var init := kept[..j];
      assert kept == init + kept[j..] && kept[j..] == [kept[j]] + kept[j + 1..];
      assert multiset(kept) == multiset(init) + (multiset([kept[j]]) + multiset(kept[j + 1..]));
      assert kept[i] == init[i] && kept[i] in init;
      assert multiset(kept)[kept[j]] <= 1;
      assert kept[i] != kept[j];
      DistinctEntries(sums, kept[i], kept[j]);
    }
  }

  /** The highest value first, and equal values by ascending entity. */
  ghost predicate Descends(s: seq<Entry>) {
    forall i, j :: 0 <= i < j < |s| ==>
      s[i].value.Rank() > s[j].value.Rank()
      || (s[i].value.Rank() == s[j].value.Rank() && Less(s[i].entity, s[j].entity))
  }

  lemma InOrderDescends(s: seq<Entry>)
    requires InOrder(s)
    ensures Descends(s)
  {}

  lemma {:induction false} InsertPermutes(s: seq<Entry>, x: Entry)
    ensures multiset(InsertEntry(s, x)) == multiset(s) + multiset{x}
  {
    if s != [] && !Before(x, s[0]) {
      InsertPermutes(s[1..], x);
      assert s == [s[0]] + s[1..];
    }
  }

  lemma {:induction false} SortPermutes(s: seq<Entry>)
    ensures multiset(SortEntries(s)) == multiset(s)
  {
    hide InsertEntry;
    if s != [] {
      var init, last := s[..|s| - 1], s[|s| - 1];
      assert s == init + [last];
      SortPermutes(init);
      InsertPermutes(SortEntries(init), last);
    }
  }

  /**
    leaderboardPage, on both paths: `skipped`, the page and `rest` together are all entries, the highest
    first; the offset says how many are skipped, and the limit how many are on the page.
    */
  method LeaderboardPage(sums: seq<Entry>, limit: int, offset: nat)
    returns (page: seq<Entry>, ghost skipped: seq<Entry>, ghost rest: seq<Entry>)
    requires Unique(sums)
    ensures multiset(skipped + page + rest) == multiset(sums) && Descends(skipped + page + rest)
    ensures |skipped| == (if offset < |sums| then offset else |sums|)
    ensures if limit > 0 then |page| == limit || (|page| < limit && rest == []) else rest == []
    ensures forall full :: Sorts(full, sums) ==> page == Page(full, offset, if limit > 0 then limit else 0)
    ensures Sorts(SortEntries(sums), sums)
  {
    hide Descends, Unique, SortEntries, Sorts, InOrder, Page;
    page := SlicePage(sums, limit, offset);
    SortIsInOrder(sums);
    SortPermutes(sums);
    InOrderDescends(SortEntries(sums));
    skipped, rest := PageParts(SortEntries(sums), page, limit, offset);
  }

  lemma PageParts(board: seq<Entry>, page: seq<Entry>, limit: int, offset: nat)
    returns (skipped: seq<Entry>, rest: seq<Entry>)
    requires page == Page(board, offset, if limit > 0 then limit else 0)
    ensures skipped + page + rest == board && |skipped| == (if offset < |board| then offset else |board|)
    ensures if limit > 0 then |page| == limit || (|page| < limit && rest == []) else rest == []
  {
    SliceAt(board, offset, if limit > 0 then limit else |board|);
    skipped := if offset < |board| then board[..offset] else board;
    rest := board[|skipped| + |page|..];
  }

  method SlicePage(sums: seq<Entry>, limit: int, offset: nat) returns (page: seq<Entry>)
    requires Unique(sums)
    ensures forall full :: Sorts(full, sums) ==> page == Page(full, offset, if limit > 0 then limit else 0)
    ensures Sorts(SortEntries(sums), sums)
  {
    hide Before, Best, SortEntries, InOrder;
    SortIsInOrder(sums);
    ghost var board := SortEntries(sums);
    forall full | Sorts(full, sums) ensures full == board { InOrderSame(full, board); }
    if offset >= |sums| { return []; }
    var k := |sums|;
    if limit > 0 && limit < k - offset { k := offset + limit; }
    var candidates := sums;
    if k < |sums| / 2 {
      candidates := SelectBest(sums, k);
      KeptUnique(sums, candidates);
    } else {
      BestOfSelf(sums);
    }
    SortIsInOrder(candidates);
    var sorted := SortEntries(candidates);
    BestIsFront(sums, candidates, sorted, board);
    page := sorted[offset..k];
    assert board[..|sorted|][offset..k] == board[offset..k];
  }
}
