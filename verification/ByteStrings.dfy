/** Byte strings in the order Redis sorted sets, Pebble keys and PostgreSQL `bytea` compare them. */
module ByteStrings {

  type Byte = b: int | 0 <= b < 256
  type Bytes = seq<Byte>

  /** Lexicographic order; a proper prefix comes first. */
  predicate Less(a: Bytes, b: Bytes) {
    |b| > 0 && (|a| == 0 || a[0] < b[0] || (a[0] == b[0] && Less(a[1..], b[1..])))
  }

  lemma LessTotal(a: Bytes, b: Bytes)
    ensures a == b || Less(a, b) || Less(b, a)
    ensures !(Less(a, b) && Less(b, a)) && (a == b ==> !Less(a, b))
  {
    if |a| > 0 && |b| > 0 && a[0] == b[0] {
      LessTotal(a[1..], b[1..]);
      assert a == [a[0]] + a[1..] && b == [b[0]] + b[1..];
    }
  }

  lemma LessTransitive(a: Bytes, b: Bytes, c: Bytes)
    requires Less(a, b) && Less(b, c)
    ensures Less(a, c)
  {
    if |a| > 0 && a[0] == b[0] && b[0] == c[0] {
      LessTransitive(a[1..], b[1..], c[1..]);
    }
  }

  /** With heads of one length, the heads decide first and the tails only break ties. */
  lemma {:induction false} LessByHead(h: Bytes, s: Bytes, k: Bytes, t: Bytes)
    requires |h| == |k|
    ensures Less(h + s, k + t) <==> Less(h, k) || (h == k && Less(s, t))
  {
    if |h| == 0 {
      assert h + s == s && k + t == t;
    } else {
      assert (h + s)[1..] == h[1..] + s && (k + t)[1..] == k[1..] + t;
      assert h == [h[0]] + h[1..] && k == [k[0]] + k[1..];
      LessByHead(h[1..], s, k[1..], t);
    }
  }

  ghost predicate Ascending(s: seq<Bytes>) {
    forall i, j :: 0 <= i < j < |s| ==> Less(s[i], s[j])
  }

  lemma LeastExists(s: set<Bytes>) returns (m: Bytes)
    requires s != {}
    ensures IsLeast(m, s)
  {
    var x :| x in s;
    if s == {x} {
      m := x;
    } else {
      var rest := s - {x};
      assert s == rest + {x};
      assert rest != {};
      var r := LeastExists(rest);
      LessTotal(r, x);
      m := if Less(x, r) then x else r;
      forall y | y in s && y != m ensures Less(m, y) {
        if m == x && y != r {
          LessTransitive(x, r, y);
        }
      }
    }
  }

  predicate IsLeast(m: Bytes, s: set<Bytes>) {
    m in s && forall x :: x in s && x != m ==> Less(m, x)
  }

  lemma LeastUnique(s: set<Bytes>)
    ensures forall m, n :: IsLeast(m, s) && IsLeast(n, s) ==> m == n
  {
    forall m, n | IsLeast(m, s) && IsLeast(n, s) ensures m == n {
      LessTotal(m, n);
    }
  }

  function Least(s: set<Bytes>): (m: Bytes)
    requires s != {}
    ensures IsLeast(m, s)
  {
    LeastUnique(s);
    assert exists m :: IsLeast(m, s) by { var m := LeastExists(s); }
    var m :| m in s && IsLeast(m, s);
    m
  }

  /** The members of a sorted set whose scores are all zero, in rank order. */
  function Sort(s: set<Bytes>): (r: seq<Bytes>) {
    if s == {} then [] else [Least(s)] + Sort(s - {Least(s)})
  }

  lemma {:induction false} SortCorrect(s: set<Bytes>)
    ensures Ascending(Sort(s))
    ensures |Sort(s)| == |s|
    ensures forall x :: x in s <==> x in Sort(s)
  {
    if s != {} {
      var m, rest := Least(s), s - {Least(s)};
      SortCorrect(rest);
      forall i, j | 0 <= i < j < |Sort(s)| ensures Less(Sort(s)[i], Sort(s)[j]) {
        assert Sort(s)[j] == Sort(rest)[j - 1];
        if i == 0 { assert Sort(rest)[j - 1] in rest; }
      }
    }
  }

  /** An ascending sequence is determined by its elements. */
  lemma {:induction false} AscendingUnique(s: seq<Bytes>, t: seq<Bytes>)
    requires Ascending(s) && Ascending(t) && |s| == |t|
    requires forall x :: x in s <==> x in t
    ensures s == t
  {
    if s != [] {
      assert s[0] in t && t[0] in s;
      var i :| 0 <= i < |t| && t[i] == s[0];
      var j :| 0 <= j < |s| && s[j] == t[0];
      LessTotal(s[0], t[0]);
      assert s[0] == t[0];
      forall x ensures x in s[1..] <==> x in t[1..] {
        TailWithoutHead(s, x);
        TailWithoutHead(t, x);
      }
      AscendingUnique(s[1..], t[1..]);
      assert s == [s[0]] + s[1..] && t == [t[0]] + t[1..];
    }
  }

  lemma TailWithoutHead(s: seq<Bytes>, x: Bytes)
    requires Ascending(s) && s != []
    ensures x in s[1..] <==> x in s && x != s[0]
  {
    if x in s[1..] {
      var k :| 0 <= k < |s| - 1 && s[1..][k] == x;
      assert s[k + 1] == x;
      LessTotal(s[0], x);
    }
    if x in s && x != s[0] {
      var k :| 0 <= k < |s| && s[k] == x;
      assert s[1..][k - 1] == x;
    }
  }

  lemma {:induction false} DistinctSize<T>(s: seq<T>)
    requires forall i, j :: 0 <= i < j < |s| ==> s[i] != s[j]
    ensures |set x | x in s| == |s|
  {
    if s != [] {
      DistinctSize(s[1..]);
      assert (set x | x in s) == (set x | x in s[1..]) + {s[0]};
    }
  }
}
