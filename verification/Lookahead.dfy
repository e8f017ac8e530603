/** The send loop's bounded lookahead over pending files, and the directory scan that fills it. */
module Lookahead {
  import opened Journal
  import opened Sequences

  const LOOKAHEAD: nat := 256

  predicate IsPending(d: Disk, o: nat) { File(o, Pending) in d }

  /** Cached names are pending, in order. */
  ghost predicate Listed(d: Disk, cache: seq<nat>) { Ascends(cache) && forall o :: o in cache ==> IsPending(d, o) }

  /** They are the smallest pending names. */
  ghost predicate CacheOk(d: Disk, cache: seq<nat>) {
    && Listed(d, cache)
    && (forall o :: IsPending(d, o) && o !in cache ==> forall c :: c in cache ==> c < o)
  }

  ghost predicate IsOldest(d: Disk, o: nat) { IsPending(d, o) && forall p :: IsPending(d, p) ==> o <= p }

  /** `kept` are the smallest names of `seen`, as many as the bound allows. */
  ghost predicate Smallest(seen: seq<nat>, kept: seq<nat>, limit: nat) {
    && Ascends(kept) && |kept| == (if |seen| < limit then |seen| else limit)
    && (forall o :: o in kept ==> o in seen)
    && (forall o :: o in seen && o !in kept ==> |kept| == limit && forall c :: c in kept ==> c < o)
  }

  lemma SmallestRoom(seen: seq<nat>, kept: seq<nat>, limit: nat, x: nat)
    requires Smallest(seen, kept, limit) && x !in seen && |kept| < limit
    ensures Smallest(seen + [x], Insert(kept, x), limit)
  {
    InsertAscends(kept, x);
  }

  lemma SmallestSwap(seen: seq<nat>, kept: seq<nat>, limit: nat, x: nat)
    requires limit > 0 && Smallest(seen, kept, limit) && x !in seen && |kept| == limit && x < kept[limit - 1]
    ensures Smallest(seen + [x], Insert(kept[..limit - 1], x), limit)
  {
    var most, last := kept[..limit - 1], kept[limit - 1];
    InsertAscends(most, x);
    hide Insert;
    assert kept == most + [last];
    assert forall c :: c in most ==> c < last;
    var kept' := Insert(most, x);
    forall o | o in seen + [x] && o !in kept' ensures forall c :: c in kept' ==> c < o {
      assert o in seen && o !in most;
      if o in kept { assert o == last; } else { assert last in kept && last < o; }
    }
  }

  lemma SmallestSkip(seen: seq<nat>, kept: seq<nat>, limit: nat, x: nat)
    requires limit > 0 && Smallest(seen, kept, limit) && x !in seen && |kept| == limit && x > kept[limit - 1]
    ensures Smallest(seen + [x], kept, limit)
  {}

  /** One pass over the directory with a priority queue of bounded size, largest name on top. */
  method SelectSmallest(listing: seq<nat>, limit: nat) returns (kept: seq<nat>)
    requires limit > 0 && forall i, j :: 0 <= i < j < |listing| ==> listing[i] != listing[j]
    ensures Smallest(listing, kept, limit)
  {
    hide Smallest;
    kept := [];
    assert Smallest([], [], limit) by { NothingSeen(limit); }
    assert listing[..0] == [];
    for i := 0 to |listing|
      invariant |kept| <= limit
      invariant Smallest(listing[..i], kept, limit)
    {
      var x := listing[i];
      assert x !in listing[..i];
      assert listing[..i + 1] == listing[..i] + [x];
      KeptAreSeen(listing[..i], kept, limit);
      if |kept| < limit {
        SmallestRoom(listing[..i], kept, limit, x);
        kept := Insert(kept, x);
      } else if x < kept[limit - 1] {
        SmallestSwap(listing[..i], kept, limit, x);
        kept := Insert(kept[..limit - 1], x);
      } else {
        assert kept[limit - 1] in kept;
        SmallestSkip(listing[..i], kept, limit, x);
      }
    }
    assert listing[..|listing|] == listing;
  }

  lemma NothingSeen(limit: nat)
    ensures Smallest([], [], limit)
  {}

  lemma KeptAreSeen(seen: seq<nat>, kept: seq<nat>, limit: nat)
    requires Smallest(seen, kept, limit)
    ensures forall o :: o in kept ==> o in seen
  {}

  lemma NothingKept(seen: seq<nat>, kept: seq<nat>, limit: nat)
    requires Smallest(seen, kept, limit) && limit > 0
    ensures kept == [] ==> seen == []
  {}

  // ---- A scan of the directory while files are being sealed ----

  /** `before` was pending when the scan began; `sealed` became pending meanwhile, and is newer. */
  ghost predicate ScanOf(d: Disk, before: set<nat>, sealed: set<nat>) {
    && (forall o :: IsPending(d, o) <==> o in before || o in sealed)
    && (forall b, s :: b in before && s in sealed ==> b < s)
  }

  /** What the stream may return: every file that was there, and any of those sealed meanwhile, each once. */
  ghost predicate Returned(before: set<nat>, sealed: set<nat>, listing: seq<nat>) {
    && (forall i, j :: 0 <= i < j < |listing| ==> listing[i] != listing[j])
    && (forall b :: b in before ==> b in listing)
    && (forall o :: o in listing ==> o in before || o in sealed)
  }

  /** The lookahead was full of older files, or at most one file was sealed during the scan. */
  ghost predicate Quiet(before: set<nat>, sealed: set<nat>) { |before| >= LOOKAHEAD || |sealed| <= 1 }

  ghost predicate AlwaysRight(d: Disk, before: set<nat>, sealed: set<nat>) {
    forall listing, cache :: Returned(before, sealed, listing) && Smallest(listing, cache, LOOKAHEAD) ==>
      CacheOk(d, cache)
  }

  /** A full lookahead of older files has no room for a sealed one. */
  lemma FullOfOlder(before: set<nat>, sealed: set<nat>, listing: seq<nat>, cache: seq<nat>, s: nat)
    requires Returned(before, sealed, listing) && Smallest(listing, cache, LOOKAHEAD) && |before| >= LOOKAHEAD
    requires (forall b :: b in before ==> b < s) && s in sealed
    ensures s !in cache
  {
    assert s !in before && |before + {s}| == |before| + 1;
    if s in cache {
      forall b | b in before ensures b in cache {}
      SetSize(cache, before + {s});
    }
  }

  lemma OnlyOne(sealed: set<nat>, s: nat, t: nat)
    requires |sealed| <= 1 && s in sealed && t in sealed
    ensures s == t
  {
    assert |sealed - {s}| == |sealed| - 1;
  }

  lemma QuietScanIsRight(d: Disk, before: set<nat>, sealed: set<nat>, listing: seq<nat>, cache: seq<nat>)
    requires ScanOf(d, before, sealed) && Quiet(before, sealed)
    requires Returned(before, sealed, listing) && Smallest(listing, cache, LOOKAHEAD)
    ensures CacheOk(d, cache)
  {
    forall o | IsPending(d, o) && o !in cache ensures forall c :: c in cache ==> c < o {
      if o !in listing {
        forall c | c in cache ensures c < o {
          if c in sealed {
            if |before| >= LOOKAHEAD {
              FullOfOlder(before, sealed, listing, cache, c);
            } else {
              OnlyOne(sealed, c, o);
            }
          }
        }
      }
    }
  }

  /** With room left, a stream that returns a sealed file but not an older sealed one gives a wrong lookahead. */
  lemma RacingScanIsWrong(d: Disk, before: set<nat>, sealed: set<nat>, first: nat, second: nat)
    requires ScanOf(d, before, sealed) && first in sealed && second in sealed && first < second && |before| < LOOKAHEAD
    ensures !AlwaysRight(d, before, sealed)
  {
    var seen := before + {second};
    var listing := SortedSet(seen);
    AscendsDistinct(listing);
    assert second !in before && |seen| == |before| + 1;
    assert Returned(before, sealed, listing) && Smallest(listing, listing, LOOKAHEAD);
    assert IsPending(d, first) && first !in listing && second in listing;
    assert !CacheOk(d, listing);
  }

  /** Whatever the stream returns the lookahead is right, if and only if the scan was quiet. */
  lemma ScanRightExactly(d: Disk, before: set<nat>, sealed: set<nat>)
    requires ScanOf(d, before, sealed)
    ensures AlwaysRight(d, before, sealed) <==> Quiet(before, sealed)
  {
    hide Smallest, CacheOk, Returned;
    if Quiet(before, sealed) {
      forall listing, cache | Returned(before, sealed, listing) && Smallest(listing, cache, LOOKAHEAD)
        ensures CacheOk(d, cache)
      {
        QuietScanIsRight(d, before, sealed, listing, cache);
      }
    } else {
      var first := LeastNat(sealed);
      var rest := sealed - {first};
      assert |rest| == |sealed| - 1;
      var second := LeastNat(rest);
      RacingScanIsWrong(d, before, sealed, first, second);
    }
  }

  lemma ScanListed(d: Disk, before: set<nat>, sealed: set<nat>, listing: seq<nat>, selected: seq<nat>)
    requires ScanOf(d, before, sealed) && Returned(before, sealed, listing) && Smallest(listing, selected, LOOKAHEAD)
    ensures Listed(d, selected)
  {}

  lemma CacheHead(d: Disk, cache: seq<nat>)
    requires CacheOk(d, cache) && cache != []
    ensures IsOldest(d, cache[0])
  {
    forall p | IsPending(d, p) ensures cache[0] <= p {
      if p in cache { var i :| 0 <= i < |cache| && cache[i] == p; } else { assert cache[0] in cache; }
    }
  }

  // ---- Renames and the lookahead ----

  lemma SealKeepsCache(d: Disk, o: nat, cache: seq<nat>)
    requires Listed(d, cache) && File(o, Open) in d && (forall g :: g in d && g != File(o, Open) ==> g.order < o)
    ensures Listed(Move(d, o, Open, Pending), cache)
    ensures CacheOk(d, cache) ==> CacheOk(Move(d, o, Open, Pending), cache)
  {
    var d' := Move(d, o, Open, Pending);
    forall c | c in cache ensures IsPending(d', c) { assert IsPending(d, c); }
    if CacheOk(d, cache) {
      forall p | IsPending(d', p) && p !in cache ensures forall c :: c in cache ==> c < p {
        forall c | c in cache ensures c < p {
          assert IsPending(d, c);
          if p != o { assert IsPending(d, p); }
        }
      }
    }
  }

  lemma SealKeepsScan(d: Disk, o: nat, before: set<nat>, sealed: set<nat>)
    requires ScanOf(d, before, sealed) && File(o, Open) in d
             && (forall g :: g in d && g != File(o, Open) ==> g.order < o)
    ensures ScanOf(Move(d, o, Open, Pending), before, sealed + {o})
  {
    var d' := Move(d, o, Open, Pending);
    forall p ensures IsPending(d', p) <==> p in before || p in sealed + {o} {
      if p != o { assert IsPending(d', p) <==> IsPending(d, p); }
    }
    forall b | b in before ensures b < o { assert IsPending(d, b); }
  }

  lemma OthersKeepScan(d: Disk, d': Disk, before: set<nat>, sealed: set<nat>)
    requires ScanOf(d, before, sealed) && forall o :: IsPending(d, o) <==> IsPending(d', o)
    ensures ScanOf(d', before, sealed)
  {}

  lemma OthersKeepCache(d: Disk, d': Disk, cache: seq<nat>)
    requires Listed(d, cache) && forall o :: IsPending(d, o) <==> IsPending(d', o)
    ensures Listed(d', cache) && (CacheOk(d, cache) ==> CacheOk(d', cache))
  {}

  lemma TakeKeepsCache(d: Disk, cache: seq<nat>, to: Stage)
    requires Listed(d, cache) && cache != [] && IsPending(d, cache[0]) && !to.Pending?
    ensures Listed(Move(d, cache[0], Pending, to), cache[1..])
    ensures CacheOk(d, cache) ==> CacheOk(Move(d, cache[0], Pending, to), cache[1..])
  {
    var d', rest := Move(d, cache[0], Pending, to), cache[1..];
    assert cache == [cache[0]] + rest;
    forall i | 0 <= i < |rest| ensures cache[0] < rest[i] && rest[i] in cache { assert rest[i] == cache[i + 1]; }
    forall p | CacheOk(d, cache) && IsPending(d', p) && p !in rest ensures forall c :: c in rest ==> c < p {
      assert IsPending(d, p) && p != cache[0];
    }
  }

  lemma SettleKeepsCache(d: Disk, o: nat, to: Stage, cache: seq<nat>)
    requires Listed(d, cache) && File(o, Inflight) in d
    ensures var cache' := if to.Pending? then [] else cache;
            Listed(Move(d, o, Inflight, to), cache')
              && (CacheOk(d, cache) ==> CacheOk(Move(d, o, Inflight, to), cache'))
  {
    if !to.Pending? {
      assert forall p :: IsPending(d, p) <==> IsPending(Move(d, o, Inflight, to), p);
    }
  }
}
