/** Rank members of internal/analytics/ranking.go: a float64 score and an entity packed into one
    byte string whose order is the leaderboard order. */
module MemberCodec {
  import opened ByteStrings
  import opened Options

  const TOP: nat := 0x8000_0000_0000_0000
  const WORD: nat := 0x1_0000_0000_0000_0000
  const INFINITY: nat := 0x7FF0_0000_0000_0000

  /** A float64 bit pattern: sign bit and the 63 bits below it (section 3.4 of IEEE 754-2019). */
  datatype Float = Float(negative: bool, magnitude: nat) {
    /** Neither an infinity nor a NaN. */
    predicate Finite() { magnitude < INFINITY }
    predicate IsZero() { magnitude == 0 }
    /** Value comparison: both zeros are the number 0. */
    function Rank(): int { if negative then 0 - magnitude as int else magnitude as int }
    predicate BelowZero() { Rank() < 0 }
    function Bits(): nat { (if negative then TOP else 0) + magnitude }
    /** `if value == 0 { value = 0 }` replaces the negative zero. */
    function Canonical(): Float { if IsZero() then ZERO else this }
  }

  const ZERO := Float(false, 0)

  type Score = f: Float | f.Finite() && (f.IsZero() ==> !f.negative) witness Float(false, 0)

  function FromBits(w: nat): (f: Float)
    requires w < WORD
    ensures f.Bits() == w && f.magnitude < TOP
  {
    if w >= TOP then Float(true, w - TOP) else Float(false, w)
  }

  /** `^bits` on 64 bits. */
  function Not(w: nat): (r: nat)
    requires w < WORD
    ensures r < WORD
  {
    WORD - 1 - w
  }

  /** `bits ^= 1 << 63`. */
  function FlipTop(w: nat): (r: nat)
    requires w < WORD
    ensures r < WORD
  {
    if w >= TOP then w - TOP else w + TOP
  }

  function Pow256(n: nat): nat { if n == 0 then 1 else 256 * Pow256(n - 1) }

  /** `binary.BigEndian.PutUint64`, for any width. */
  function BigEndian(w: nat, n: nat): (b: Bytes)
    ensures |b| == n
  {
    if n == 0 then [] else BigEndian(w / 256, n - 1) + [w % 256]
  }

  function FromBigEndian(b: Bytes): nat {
    if |b| == 0 then 0 else FromBigEndian(b[..|b| - 1]) * 256 + b[|b| - 1]
  }

  lemma {:induction false} BigEndianRoundTrip(w: nat, n: nat)
    requires w < Pow256(n)
    ensures FromBigEndian(BigEndian(w, n)) == w
  {
    if n > 0 {
      BigEndianRoundTrip(w / 256, n - 1);
      assert BigEndian(w, n)[..n - 1] == BigEndian(w / 256, n - 1);
    }
  }

  lemma {:induction false} FromBigEndianRange(b: Bytes)
    ensures FromBigEndian(b) < Pow256(|b|)
    ensures BigEndian(FromBigEndian(b), |b|) == b
  {
    if |b| > 0 {
      FromBigEndianRange(b[..|b| - 1]);
      assert b == b[..|b| - 1] + [b[|b| - 1]];
    }
  }

  /** Big-endian words compare like the numbers they hold. */
  lemma {:induction false} BigEndianOrder(v: nat, w: nat, n: nat)
    requires v < Pow256(n) && w < Pow256(n)
    ensures Less(BigEndian(v, n), BigEndian(w, n)) <==> v < w
  {
    if n > 0 {
      BigEndianOrder(v / 256, w / 256, n - 1);
      LessByHead(BigEndian(v / 256, n - 1), [v % 256], BigEndian(w / 256, n - 1), [w % 256]);
      BigEndianRoundTrip(v / 256, n - 1);
      BigEndianRoundTrip(w / 256, n - 1);
      assert Less([v % 256], [w % 256]) <==> v % 256 < w % 256;
    }
  }

  lemma WordIsPow256()
    ensures Pow256(8) == WORD
  {
    assert Pow256(4) == 0x1_0000_0000;
    assert Pow256(6) == 0x1_0000_0000_0000;
  }

  /** Each byte of the entity complemented and preceded by 0. */
  function Complement(entity: Bytes): (r: Bytes)
    ensures |r| == 2 * |entity|
  {
    if entity == [] then [] else [0, 255 - entity[0]] + Complement(entity[1..])
  }

  /** The entity part of a negative score: the end is marked by 1. */
  function Reversed(entity: Bytes): Bytes { Complement(entity) + [1] }

  function OrderWord(value: Float): (w: nat)
    requires value.Finite()
    ensures w < WORD
  {
    var bits := value.Canonical().Bits();
    Not(if bits >= TOP then Not(bits) else FlipTop(bits))
  }

  function Encode(value: Float, entity: Bytes): (member: Bytes)
    requires value.Finite()
    ensures |member| >= 8
  {
    BigEndian(OrderWord(value), 8) + (if value.BelowZero() then Reversed(entity) else entity)
  }

  datatype Decoded = Member(value: Float, entity: Bytes) | Corrupt(reason: string)

  function ReadPairs(pairs: Bytes): Option<Bytes> {
    if |pairs| < 2 then Some([])
    else if pairs[0] != 0 then None
    else
      var rest := ReadPairs(pairs[2..]);
      if rest.None? then None else Some([255 - pairs[1]] + rest.value)
  }

  function ReadReversed(tail: Bytes): Option<Bytes> {
    if |tail| % 2 != 1 || tail[|tail| - 1] != 1 then None else ReadPairs(tail[..|tail| - 1])
  }

  function Decode(member: Bytes): Decoded {
    if |member| < 8 then Corrupt("corrupt Redis rank member")
    else
      FromBigEndianRange(member[..8]); WordIsPow256();
      var bits := Not(FromBigEndian(member[..8]));
      var value := FromBits(if bits >= TOP then FlipTop(bits) else Not(bits));
      if !value.Finite() then Corrupt("nonfinite Redis rank member")
      else if !value.BelowZero() then Member(value, member[8..])
      else
        var r := ReadReversed(member[8..]);
        if r.None? then Corrupt("corrupt reversed entity") else Member(value, r.value)
  }

  /** SQL's `scoreOrder`: value descending, then entity bytes ascending at or above zero and
      descending below it. */
  predicate Before(v: Float, e: Bytes, w: Float, f: Bytes) {
    v.Rank() > w.Rank()
    || (v.Rank() == w.Rank() && if v.BelowZero() then Less(f, e) else Less(e, f))
  }

  lemma {:induction false} ReversedOrder(e: Bytes, f: Bytes)
    ensures Less(Reversed(e), Reversed(f)) <==> Less(f, e)
  {
    if e != [] && f != [] {
      ReversedOrder(e[1..], f[1..]);
      var x, y := [0, 255 - e[0]], [0, 255 - f[0]];
      assert Reversed(e) == x + Reversed(e[1..]) && Reversed(f) == y + Reversed(f[1..]);
      LessByHead(x, Reversed(e[1..]), y, Reversed(f[1..]));
      assert x[1..] == [255 - e[0]] && y[1..] == [255 - f[0]];
    }
  }

  lemma OrderWordOrder(v: Float, w: Float)
    requires v.Finite() && w.Finite()
    ensures Less(BigEndian(OrderWord(v), 8), BigEndian(OrderWord(w), 8)) <==> v.Rank() > w.Rank()
    ensures BigEndian(OrderWord(v), 8) == BigEndian(OrderWord(w), 8) <==> v.Rank() == w.Rank()
  {
    WordIsPow256();
    BigEndianOrder(OrderWord(v), OrderWord(w), 8);
    BigEndianRoundTrip(OrderWord(v), 8);
    BigEndianRoundTrip(OrderWord(w), 8);
  }

  /** Redis's byte order on members is exactly SQL's leaderboard order. */
  lemma EncodeOrder(v: Float, e: Bytes, w: Float, f: Bytes)
    requires v.Finite() && w.Finite()
    ensures Less(Encode(v, e), Encode(w, f)) <==> Before(v, e, w, f)
  {
    OrderWordOrder(v, w);
    ReversedOrder(e, f);
    LessByHead(BigEndian(OrderWord(v), 8), if v.BelowZero() then Reversed(e) else e,
               BigEndian(OrderWord(w), 8), if w.BelowZero() then Reversed(f) else f);
  }

  lemma {:induction false} ComplementRoundTrip(entity: Bytes)
    ensures ReadPairs(Complement(entity)) == Some(entity)
  {
    if entity != [] {
      ComplementRoundTrip(entity[1..]);
      assert Complement(entity)[2..] == Complement(entity[1..]);
      assert entity == [entity[0]] + entity[1..];
    }
  }

  lemma ReversedRoundTrip(entity: Bytes)
    ensures ReadReversed(Reversed(entity)) == Some(entity)
  {
    hide Complement, ReadPairs;
    ComplementRoundTrip(entity);
    assert Reversed(entity)[..|Reversed(entity)| - 1] == Complement(entity);
  }

  /** Decoding returns the canonical score and the entity, for every byte-string entity. */
  lemma EncodeRoundTrip(value: Float, entity: Bytes)
    requires value.Finite()
    ensures Decode(Encode(value, entity)) == Member(value.Canonical(), entity)
  {
    var member := Encode(value, entity);
    var tail := if value.BelowZero() then Reversed(entity) else entity;
    assert member[..8] == BigEndian(OrderWord(value), 8) && member[8..] == tail;
    WordIsPow256();
    BigEndianRoundTrip(OrderWord(value), 8);
    ReversedRoundTrip(entity);
    hide BigEndian, FromBigEndian, Pow256, Reversed, ReadReversed, ReadPairs, Complement;
  }

  lemma {:induction false} ReadPairsInverse(pairs: Bytes)
    requires |pairs| % 2 == 0 && ReadPairs(pairs).Some?
    ensures Complement(ReadPairs(pairs).value) == pairs
  {
    if |pairs| >= 2 {
      ReadPairsInverse(pairs[2..]);
      var rest := ReadPairs(pairs[2..]).value;
      assert ([255 - pairs[1]] + rest)[1..] == rest;
      assert pairs == [0, pairs[1]] + pairs[2..];
    }
  }

  lemma ReadReversedInverse(tail: Bytes)
    requires ReadReversed(tail).Some?
    ensures Reversed(ReadReversed(tail).value) == tail
  {
    ReadPairsInverse(tail[..|tail| - 1]);
    assert tail == tail[..|tail| - 1] + [1];
    hide ReadPairs, Complement;
  }

  /** A member that decodes was produced by encoding what it decodes to, except that the pattern of
      the negative zero is accepted although the encoder never writes it. */
  lemma DecodeInverse(member: Bytes)
    requires Decode(member).Member?
    ensures Decode(member).value.Finite()
    ensures var d := Decode(member);
            Encode(d.value, d.entity) == member <==> !(d.value.IsZero() && d.value.negative)
  {
    var d := Decode(member);
    FromBigEndianRange(member[..8]);
    WordIsPow256();
    var w := FromBigEndian(member[..8]);
    assert member == member[..8] + member[8..];
    if d.value.BelowZero() { ReadReversedInverse(member[8..]); }
    var e := Encode(d.value, d.entity);
    assert e[..8] == BigEndian(OrderWord(d.value), 8);
    BigEndianRoundTrip(OrderWord(d.value), 8);
    assert OrderWord(d.value) == w <==> !(d.value.IsZero() && d.value.negative);
  }

  /** Two scored entities share a member only if they are the same. */
  lemma EncodeInjective(v: Score, e: Bytes, w: Score, f: Bytes)
    ensures Encode(v, e) == Encode(w, f) ==> v == w && e == f
  {
    EncodeRoundTrip(v, e);
    EncodeRoundTrip(w, f);
  }
}
