/** Pages, reversals and ascending sequences. */
module Sequences {

  /** At most `limit` elements from `offset` on. */
  function Slice<T>(s: seq<T>, offset: nat, limit: nat): (r: seq<T>) {
    if offset >= |s| then [] else if limit >= |s| - offset then s[offset..] else s[offset..offset + limit]
  }

  lemma SliceAt<T>(s: seq<T>, offset: nat, limit: nat)
    ensures var r := Slice(s, offset, limit);
            && |r| == (if offset >= |s| then 0 else if limit < |s| - offset then limit else |s| - offset)
            && forall i :: 0 <= i < |r| ==> r[i] == s[offset + i]
  {}

  function Reverse<T>(s: seq<T>): (r: seq<T>)
    ensures |r| == |s| && forall i :: 0 <= i < |s| ==> r[i] == s[|s| - 1 - i]
  {
    seq(|s|, i requires 0 <= i < |s| => s[|s| - 1 - i])
  }

  /** A page request: no limit stands for every element from the offset on. */
  function Page<T>(s: seq<T>, offset: nat, limit: nat): seq<T> { Slice(s, offset, if limit == 0 then |s| else limit) }

  lemma SliceCap<T>(s: seq<T>, offset: nat, cap: nat)
    requires cap >= |s|
    ensures Slice(s, offset, cap) == Slice(s, offset, |s|)
  {}

  /** Delivering one element at a time: skip it while the offset lasts, else take it. */
  lemma SliceStep<T>(x: T, rest: seq<T>, offset: nat, limit: nat)
    ensures offset > 0 ==> Slice([x] + rest, offset, limit) == Slice(rest, offset - 1, limit)
    ensures offset == 0 && limit > 0 ==> Slice([x] + rest, 0, limit) == [x] + Slice(rest, 0, limit - 1)
  {}

  ghost predicate Ascends(s: seq<nat>) { forall i, j :: 0 <= i < j < |s| ==> s[i] < s[j] }

  function Insert(s: seq<nat>, x: nat): (r: seq<nat>)
    ensures |r| == |s| + 1 && forall y :: y in r <==> y == x || y in s
  {
    if s == [] then [x]
    else if x < s[0] then [x] + s
    else
      var r := [s[0]] + Insert(s[1..], x);
      assert s == [s[0]] + s[1..];
      r
  }

  lemma {:induction false} InsertAscends(s: seq<nat>, x: nat)
    requires Ascends(s) && x !in s
    ensures Ascends(Insert(s, x))
  {
    if s != [] && x > s[0] {
      InsertAscends(s[1..], x);
      var t := Insert(s[1..], x);
      forall i | 0 <= i < |t| ensures s[0] < t[i] { assert t[i] in t; }
    }
  }

  lemma AscendsDistinct(s: seq<nat>)
    requires Ascends(s)
    ensures forall i, j :: 0 <= i < j < |s| ==> s[i] != s[j]
  {}

  /** Ascending sequences with the same elements are equal. */
  lemma {:induction false} AscendsSame(s: seq<nat>, t: seq<nat>)
    requires Ascends(s) && Ascends(t) && forall x :: x in s <==> x in t
    ensures s == t
  {
    assert (s != [] ==> s[0] in t) && (t != [] ==> t[0] in s);
    if s != [] && t != [] {
      var i :| 0 <= i < |t| && t[i] == s[0];
      var j :| 0 <= j < |s| && s[j] == t[0];
      assert s[0] == t[0];
      forall x ensures x in s[1..] <==> x in t[1..] {
        assert s == [s[0]] + s[1..] && t == [t[0]] + t[1..];
        assert x in s <==> x in t;
        assert s[0] !in s[1..] && t[0] !in t[1..];
      }
      AscendsSame(s[1..], t[1..]);
      assert s == [s[0]] + s[1..] && t == [t[0]] + t[1..];
    }
  }

  /** Sorting distinct numbers. */
  function SortNats(s: seq<nat>): (r: seq<nat>)
    ensures |r| == |s| && forall x :: x in r <==> x in s
  {
    if s == [] then []
    else
      assert s == s[..|s| - 1] + [s[|s| - 1]];
      Insert(SortNats(s[..|s| - 1]), s[|s| - 1])
  }

  lemma {:induction false} SortAscends(s: seq<nat>)
    requires forall i, j :: 0 <= i < j < |s| ==> s[i] != s[j]
    ensures Ascends(SortNats(s))
  {
    if s != [] {
      SortAscends(s[..|s| - 1]);
      InsertAscends(SortNats(s[..|s| - 1]), s[|s| - 1]);
    }
  }

  predicate IsLeastNat(k: nat, s: set<nat>) { k in s && forall j :: j in s ==> k <= j }

  lemma {:induction false} LeastNat(s: set<nat>) returns (k: nat)
    requires s != {}
    ensures IsLeastNat(k, s)
  {
    k :| k in s;
    var rest := s - {k};
    if rest != {} {
      var other := LeastNat(rest);
      assert s == rest + {k};
      if other < k { k := other; }
    } else {
      assert s == {k};
    }
  }

  lemma LeastNatExists(s: set<nat>)
    requires s != {}
    ensures exists k :: IsLeastNat(k, s)
  {
    var k := LeastNat(s);
  }

  /** A set of numbers, ascending. */
  function SortedSet(s: set<nat>): (r: seq<nat>)
    ensures Ascends(r) && |r| == |s| && forall k :: k in r <==> k in s
  {
    if s == {} then []
    else
      LeastNatExists(s);
      var k :| IsLeastNat(k, s);
      [k] + SortedSet(s - {k})
  }

  lemma {:induction false} SetSize(s: seq<nat>, t: set<nat>)
    requires forall x :: x in t ==> x in s
    ensures |t| <= |s|
  {
    if s != [] {
      var n := |s| - 1;
      assert s == s[..n] + [s[n]];
      SetSize(s[..n], t - {s[n]});
    } else {
      assert t == {};
    }
  }
}
