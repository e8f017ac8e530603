/** Pebble keys: delimiter-free components (internal/keyspace/component.go) and ordered range scans. */
module Keyspace {
  import opened Options
  import opened ByteStrings

  const COLON: Byte := 58
  const MARK: Byte := 31

  function HexDigit(n: int): (d: Byte)
    requires 0 <= n < 16
    ensures d != COLON && d != MARK
  {
    if n < 10 then 48 + n else 87 + n
  }

  /** hex.DecodeString reads both letter cases. */
  function DigitValue(d: Byte): Option<int> {
    if 48 <= d <= 57 then Some(d - 48)
    else if 97 <= d <= 102 then Some(d - 87)
    else if 65 <= d <= 70 then Some(d - 55)
    else None
  }

  function Hex(name: Bytes): Bytes {
    if name == [] then [] else [HexDigit(name[0] / 16), HexDigit(name[0] % 16)] + Hex(name[1..])
  }

  function Unhex(digits: Bytes): Option<Bytes> {
    if digits == [] then Some([])
    else if |digits| == 1 then None
    else
      var high, low, rest := DigitValue(digits[0]), DigitValue(digits[1]), Unhex(digits[2..]);
      if high.None? || low.None? || rest.None? then None
      else
        var b: int := 16 * high.value + low.value;
        if 0 <= b < 256 then Some([b] + rest.value) else None
  }

  predicate Special(name: Bytes) { COLON in name || MARK in name }

  function Component(name: Bytes): Bytes { if Special(name) then [MARK] + Hex(name) else name }

  function DecodeComponent(part: Bytes): Bytes {
    if part != [] && part[0] == MARK && Unhex(part[1..]).Some? then Unhex(part[1..]).value else part
  }

  lemma DigitRoundTrip(d: nat)
    requires d < 16
    ensures DigitValue(HexDigit(d)) == Some(d) && HexDigit(d) != COLON
  {}

  lemma {:induction false} HexRoundTrip(name: Bytes)
    ensures Unhex(Hex(name)) == Some(name) && COLON !in Hex(name)
  {
    if name != [] {
      HexRoundTrip(name[1..]);
      assert Hex(name)[2..] == Hex(name[1..]);
      assert name == [name[0]] + name[1..];
      DigitRoundTrip(name[0] / 16);
      DigitRoundTrip(name[0] % 16);
    }
  }

  /** A digit in lower case. */
  function Lower(d: Byte): Byte { if 65 <= d <= 70 then d + 32 else d }

  lemma DigitExactly(d: Byte, n: int)
    ensures DigitValue(d) == Some(n) <==> 0 <= n < 16 && HexDigit(n) == Lower(d)
  {}

  /** Exactly the hexadecimal digits of a name, in either letter case, decode to it. */
  lemma {:induction false} UnhexExactly(digits: Bytes, name: Bytes)
    ensures Unhex(digits) == Some(name) <==>
              |digits| == |Hex(name)| && forall i :: 0 <= i < |digits| ==> Lower(digits[i]) == Hex(name)[i]
  {
    if |digits| >= 2 && name != [] {
      UnhexExactly(digits[2..], name[1..]);
      DigitExactly(digits[0], name[0] / 16);
      DigitExactly(digits[1], name[0] % 16);
      HexTail(digits, name);
      UnhexNext(digits, name);
    }
  }

  lemma UnhexNext(digits: Bytes, name: Bytes)
    requires |digits| >= 2 && name != []
    ensures Unhex(digits) == Some(name) <==>
              && DigitValue(digits[0]) == Some(name[0] / 16) && DigitValue(digits[1]) == Some(name[0] % 16)
              && Unhex(digits[2..]) == Some(name[1..])
  {
    var high, low, rest := DigitValue(digits[0]), DigitValue(digits[1]), Unhex(digits[2..]);
    assert name == [name[0]] + name[1..];
    if high.Some? && low.Some? && rest.Some? {
      DigitExactly(digits[0], high.value);
      DigitExactly(digits[1], low.value);
      assert ([16 * high.value + low.value] + rest.value)[1..] == rest.value;
    }
  }

  lemma HexTail(digits: Bytes, name: Bytes)
    requires |digits| >= 2 && name != []
    ensures |digits| == |Hex(name)| && (forall i :: 0 <= i < |digits| ==> Lower(digits[i]) == Hex(name)[i]) <==>
              && |digits[2..]| == |Hex(name[1..])|
              && (forall i :: 0 <= i < |digits| - 2 ==> Lower(digits[2..][i]) == Hex(name[1..])[i])
              && Lower(digits[0]) == HexDigit(name[0] / 16) && Lower(digits[1]) == HexDigit(name[0] % 16)
  {}

  /** A component holds no delimiter and determines its name, for every byte string. */
  lemma ComponentRoundTrip(name: Bytes)
    ensures COLON !in Component(name) && DecodeComponent(Component(name)) == name
  {
    HexRoundTrip(name);
    if Special(name) { assert Component(name)[1..] == Hex(name); }
  }

  /** Names are told apart by the text before the first delimiter. */
  lemma {:induction false} SplitAtColon(a: Bytes, s: Bytes, b: Bytes, t: Bytes)
    requires COLON !in a && COLON !in b && a + [COLON] + s == b + [COLON] + t
    ensures a == b && s == t
  {
    var x, y := a + [COLON] + s, b + [COLON] + t;
    if a == [] || b == [] {
      assert x[0] == y[0];
      assert a == b;
      assert x[1..] == s && y[1..] == t;
    } else {
      assert x[0] == a[0] && y[0] == b[0];
      assert x[1..] == a[1..] + [COLON] + s && y[1..] == b[1..] + [COLON] + t;
      SplitAtColon(a[1..], s, b[1..], t);
      assert a == [a[0]] + a[1..] && b == [b[0]] + b[1..];
    }
  }

  // ---- Ordered scans ----

  datatype KV<V> = KV(key: Bytes, value: V)

  /** The store as its iterator walks it. */
  ghost predicate Ordered<V>(db: seq<KV<V>>) {
    forall i, j :: 0 <= i < j < |db| ==> Less(db[i].key, db[j].key)
  }

  predicate InRange(key: Bytes, lower: Bytes, upper: Bytes) { !Less(key, lower) && Less(key, upper) }

  /** The rows an iterator with these bounds visits. */
  function Range<V>(db: seq<KV<V>>, lower: Bytes, upper: Bytes): seq<KV<V>> {
    if db == [] then []
    else (if InRange(db[0].key, lower, upper) then [db[0]] else []) + Range(db[1..], lower, upper)
  }

  lemma {:induction false} RangeExact<V>(db: seq<KV<V>>, lower: Bytes, upper: Bytes)
    requires Ordered(db)
    ensures forall kv :: kv in Range(db, lower, upper) ==> kv in db && InRange(kv.key, lower, upper)
    ensures forall kv :: kv in db && InRange(kv.key, lower, upper) ==> kv in Range(db, lower, upper)
    ensures Ordered(Range(db, lower, upper))
  {
    hide Less, InRange;
    if db != [] {
      RangeExact(db[1..], lower, upper);
      var rest := Range(db[1..], lower, upper);
      assert db == [db[0]] + db[1..];
      forall k | 0 <= k < |rest| ensures Less(db[0].key, rest[k].key) {
        var kv := rest[k];
        assert kv in Range(db[1..], lower, upper);
        assert kv in db[1..];
        var j :| 0 <= j < |db| - 1 && db[1..][j] == rest[k];
        assert rest[k] == db[j + 1];
      }
    }
  }

  /** Between "p:" and "p;" lie exactly the keys that start with "p:". */
  lemma {:induction false} DelimitedRange(key: Bytes, p: Bytes)
    ensures InRange(key, p + [COLON], p + [COLON + 1]) <==> |key| > |p| && key[..|p| + 1] == p + [COLON]
  {
    if p == [] {
      assert p + [COLON] == [COLON] && p + [COLON + 1] == [COLON + 1];
      if key != [] {
        assert key[..1] == [key[0]];
        assert Less(key, [COLON]) <==> key[0] < COLON;
        assert Less(key, [COLON + 1]) <==> key[0] < COLON + 1;
      }
    } else if key != [] {
      assert (p + [COLON])[1..] == p[1..] + [COLON] && (p + [COLON + 1])[1..] == p[1..] + [COLON + 1];
      if key[0] == p[0] {
        DelimitedRange(key[1..], p[1..]);
        assert p == [p[0]] + p[1..] && key == [key[0]] + key[1..];
        if |key| > |p| { assert key[..|p| + 1] == [key[0]] + key[1..][..|p|]; }
      } else if |key| > |p| {
        assert key[..|p| + 1][0] == key[0];
      }
    }
  }
}
