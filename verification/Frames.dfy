/** The length and checksum framing of journal files, and reading a file whose tail was cut off. */
module Frames {
  import opened Options
  import opened ByteStrings
  import opened MemberCodec

  const MAX_ENTRY: nat := 65536
  const MAX_ENTRIES: nat := 512
  const MAX_BATCH: nat := 524288
  const INT: nat := 0x1_0000_0000

  /** What a file reads as: its entries, or an error. */
  datatype Outcome<R> = Entries(entries: seq<R>) | Unreadable

  /** The checksum and the UTF-8 and JSON decoding of one payload. */
  datatype Format<!R> = Format(crc: Bytes -> nat, decode: Bytes -> Option<R>)

  function Frame<R>(fmt: Format<R>, payload: Bytes): (b: Bytes)
    ensures |b| == |payload| + 8
  {
    BigEndian(|payload|, 4) + BigEndian(fmt.crc(payload), 4) + payload
  }

  function Stream<R>(fmt: Format<R>, payloads: seq<Bytes>): Bytes {
    if payloads == [] then [] else Frame(fmt, payloads[0]) + Stream(fmt, payloads[1..])
  }

  /** Payloads as append writes them. */
  ghost predicate Writable<R>(fmt: Format<R>, payload: Bytes) {
    1 <= |payload| <= MAX_ENTRY && fmt.crc(payload) < INT && fmt.decode(payload).Some?
  }

  function Records<R>(fmt: Format<R>, payloads: seq<Bytes>): seq<R>
    requires forall p :: p in payloads ==> fmt.decode(p).Some?
  {
    seq(|payloads|, i requires 0 <= i < |payloads| => fmt.decode(payloads[i]).value)
  }

  /** One frame at the front of the input. */
  datatype Head<R> = EndOfFile | Broken | Good(entry: R, size: nat)

  function ReadHead<R>(fmt: Format<R>, input: Bytes): (h: Head<R>)
    ensures h.Good? ==> 8 < h.size <= |input|
  {
    if |input| < 4 then EndOfFile
    else
      var size := FromBigEndian(input[..4]);
      if !(1 <= size <= MAX_ENTRY) then Broken
      else if |input| < 8 + size then EndOfFile
      else
        var payload := input[8..8 + size];
        if fmt.crc(payload) % INT != FromBigEndian(input[4..8]) || fmt.decode(payload).None? then Broken
        else Good(fmt.decode(payload).value, 8 + size)
  }

  /** The whole file; a short last frame is an error unless the reader is tolerant. */
  function ReadAll<R>(fmt: Format<R>, input: Bytes, tolerant: bool, room: nat): (r: Outcome<R>)
    decreases |input|
  {
    if input == [] then Entries([])
    else
      var h := ReadHead(fmt, input);
      if h.EndOfFile? then if tolerant then Entries([]) else Unreadable
      else if h.Broken? || room == 0 then Unreadable
      else
        var rest := ReadAll(fmt, input[h.size..], tolerant, room - 1);
        if rest.Unreadable? then rest else Entries([h.entry] + rest.entries)
  }

  /** Reading a file: one that is too large is refused before anything is read. */
  function ReadFile<R>(fmt: Format<R>, input: Bytes, tolerant: bool): Outcome<R> {
    if |input| > MAX_BATCH + MAX_ENTRY + 8 then Unreadable else ReadAll(fmt, input, tolerant, MAX_ENTRIES)
  }

  method Read<R>(fmt: Format<R>, input: Bytes, tolerant: bool) returns (r: Outcome<R>)
    ensures r == ReadFile(fmt, input, tolerant)
  {
    if |input| > MAX_BATCH + MAX_ENTRY + 8 { return Unreadable; }
    r := ReadFrames(fmt, input, tolerant);
  }

  /** The reading loop. */
  method ReadFrames<R>(fmt: Format<R>, input: Bytes, tolerant: bool) returns (r: Outcome<R>)
    ensures r == ReadAll(fmt, input, tolerant, MAX_ENTRIES)
  {
    hide ReadHead;
    var entries, at := [], 0;
    assert input[0..] == input;
    while at < |input|
      invariant 0 <= at <= |input| && |entries| <= MAX_ENTRIES
      invariant var rest := ReadAll(fmt, input[at..], tolerant, MAX_ENTRIES - |entries|);
                ReadAll(fmt, input, tolerant, MAX_ENTRIES)
                == if rest.Unreadable? then rest else Entries(entries + rest.entries)
    {
      var h := ReadHead(fmt, input[at..]);
      if h.EndOfFile? { return if tolerant then Entries(entries) else Unreadable; }
      if h.Broken? || |entries| == MAX_ENTRIES { return Unreadable; }
      assert input[at..][h.size..] == input[at + h.size..];
      ghost var rest := ReadAll(fmt, input[at + h.size..], tolerant, MAX_ENTRIES - |entries| - 1);
      assert rest.Entries? ==> entries + ([h.entry] + rest.entries) == entries + [h.entry] + rest.entries;
      entries, at := entries + [h.entry], at + h.size;
    }
    return Entries(entries);
  }

  lemma FourBytes(n: nat)
    requires n < INT
    ensures FromBigEndian(BigEndian(n, 4)) == n
  {
    assert Pow256(4) == INT by { assert Pow256(2) == 65536; }
    BigEndianRoundTrip(n, 4);
  }

  lemma FrameReads<R>(fmt: Format<R>, payload: Bytes, rest: Bytes)
    requires Writable(fmt, payload)
    ensures ReadHead(fmt, Frame(fmt, payload) + rest) == Good(fmt.decode(payload).value, |payload| + 8)
  {
    hide BigEndian, FromBigEndian;
    FourBytes(|payload|);
    FourBytes(fmt.crc(payload));
    var input := Frame(fmt, payload) + rest;
    assert input[..4] == BigEndian(|payload|, 4);
    assert input[4..8] == BigEndian(fmt.crc(payload), 4);
    assert input[8..8 + |payload|] == payload;
  }

  lemma CutFrameReads<R>(fmt: Format<R>, payload: Bytes, k: nat)
    requires Writable(fmt, payload) && k < |payload| + 8
    ensures ReadHead(fmt, Frame(fmt, payload)[..k]) == EndOfFile
  {
    hide BigEndian, FromBigEndian;
    FourBytes(|payload|);
    var input := Frame(fmt, payload)[..k];
    if k >= 4 { assert input[..4] == BigEndian(|payload|, 4); }
  }

  lemma StreamTail<R>(fmt: Format<R>, payloads: seq<Bytes>, k: nat)
    requires payloads != [] && |payloads[0]| + 8 <= k <= |Stream(fmt, payloads)|
    ensures k - |payloads[0]| - 8 <= |Stream(fmt, payloads[1..])|
    ensures Stream(fmt, payloads)[..k] == Frame(fmt, payloads[0]) + Stream(fmt, payloads[1..])[..k - |payloads[0]| - 8]
  {}

  lemma FirstFrameReads<R>(fmt: Format<R>, payload: Bytes, rest: Bytes, tolerant: bool, room: nat)
    requires Writable(fmt, payload) && room > 0
    ensures var r := ReadAll(fmt, rest, tolerant, room - 1);
            ReadAll(fmt, Frame(fmt, payload) + rest, tolerant, room)
            == if r.Unreadable? then r else Entries([fmt.decode(payload).value] + r.entries)
  {
    hide ReadHead, Frame, Writable;
    FrameReads(fmt, payload, rest);
    Decodable(fmt, [payload]);
    assert (Frame(fmt, payload) + rest)[|payload| + 8..] == rest;
  }

  lemma RecordsCons<R>(fmt: Format<R>, payloads: seq<Bytes>)
    requires payloads != [] && forall p :: p in payloads ==> fmt.decode(p).Some?
    ensures payloads[0] in payloads
            && Records(fmt, payloads) == [fmt.decode(payloads[0]).value] + Records(fmt, payloads[1..])
  {}

  lemma CutFirstFrame<R>(fmt: Format<R>, payloads: seq<Bytes>, k: nat, room: nat)
    requires payloads != [] && Writable(fmt, payloads[0]) && k < |Stream(fmt, payloads[..1])|
             && k <= |Stream(fmt, payloads)|
    ensures var input := Stream(fmt, payloads)[..k];
            && ReadAll(fmt, input, true, room) == Entries([])
            && ReadAll(fmt, input, false, room) == if k == 0 then Entries([]) else Unreadable
  {
    hide ReadHead, Frame, Writable;
    assert payloads[..1] == [payloads[0]] && Stream(fmt, payloads[..1]) == Frame(fmt, payloads[0]) + [];
    assert Stream(fmt, payloads)[..k] == Frame(fmt, payloads[0])[..k];
    CutFrameReads(fmt, payloads[0], k);
  }

  /**
    Reading the first k bytes of a stream of frames, of which exactly n lie wholly before the cut: the
    tolerant reader returns those n entries, the strict one does so only when the cut is a frame boundary.
    */
  lemma {:induction false} CutStreamReads<R>(fmt: Format<R>, payloads: seq<Bytes>, n: nat, k: nat, room: nat)
    requires (forall p :: p in payloads ==> Writable(fmt, p)) && |payloads| <= room && n <= |payloads|
    requires |Stream(fmt, payloads[..n])| <= k <= |Stream(fmt, payloads)|
    requires n < |payloads| ==> k < |Stream(fmt, payloads[..n + 1])|
    ensures forall p :: p in payloads[..n] ==> fmt.decode(p).Some?
    ensures var input, all := Stream(fmt, payloads)[..k], Entries(Records(fmt, payloads[..n]));
            && ReadAll(fmt, input, true, room) == all
            && ReadAll(fmt, input, false, room) == if k == |Stream(fmt, payloads[..n])| then all else Unreadable
    decreases n
  {
    hide ReadHead, Frame, Writable;
    var input := Stream(fmt, payloads)[..k];
    assert forall p :: p in payloads ==> fmt.decode(p).Some? by { Decodable(fmt, payloads); }
    if n == 0 {
      if payloads != [] { CutFirstFrame(fmt, payloads, k, room); }
    } else {
      var rest, head := payloads[1..], Frame(fmt, payloads[0]);
      assert payloads[..n][1..] == rest[..n - 1];
      if n < |payloads| { assert payloads[..n + 1][1..] == rest[..n]; }
      StreamTail(fmt, payloads, k);
      CutStreamReads(fmt, rest, n - 1, k - |head|, room - 1);
      hide ReadAll, Records;
      var tail := Stream(fmt, rest)[..k - |head|];
      FirstFrameReads(fmt, payloads[0], tail, true, room);
      FirstFrameReads(fmt, payloads[0], tail, false, room);
      RecordsCons(fmt, payloads[..n]);
    }
  }

  lemma Decodable<R>(fmt: Format<R>, payloads: seq<Bytes>)
    requires forall p :: p in payloads ==> Writable(fmt, p)
    ensures forall p :: p in payloads ==> fmt.decode(p).Some?
  {}

  lemma {:induction false} StreamAppend<R>(fmt: Format<R>, a: seq<Bytes>, b: seq<Bytes>)
    ensures Stream(fmt, a + b) == Stream(fmt, a) + Stream(fmt, b)
  {
    hide Frame;
    if a == [] {
      assert a + b == b;
    } else {
      assert (a + b)[1..] == a[1..] + b;
      StreamAppend(fmt, a[1..], b);
    }
  }

  /** What append puts into one file: no frame but the first takes it over the batch limit. */
  ghost predicate Admitted<R>(fmt: Format<R>, payloads: seq<Bytes>) {
    && (forall p :: p in payloads ==> Writable(fmt, p)) && |payloads| <= MAX_ENTRIES
    && (forall n :: 1 < n <= |payloads| ==> |Stream(fmt, payloads[..n])| <= MAX_BATCH)
  }

  /** So no file that append wrote is too large to be read. */
  lemma AdmittedFits<R>(fmt: Format<R>, payloads: seq<Bytes>)
    requires Admitted(fmt, payloads)
    ensures |Stream(fmt, payloads)| <= MAX_BATCH + MAX_ENTRY + 8
  {
    hide Frame;
    var n := |payloads|;
    if n == 1 {
      OneFrame(fmt, payloads[0]);
      assert payloads == [payloads[0]] && payloads[0] in payloads;
    } else if n > 1 {
      assert payloads[..n] == payloads;
    }
  }

  /** The bytes of a journal file: whole frames, and a part of one more if its write was interrupted. */
  ghost predicate FileOf<R>(fmt: Format<R>, payloads: seq<Bytes>, torn: bool, bytes: Bytes) {
    if !torn then Admitted(fmt, payloads) && bytes == Stream(fmt, payloads)
    else exists last, k :: TornAt(fmt, payloads, last, k, bytes)
  }

  ghost predicate TornAt<R>(fmt: Format<R>, payloads: seq<Bytes>, last: Bytes, k: nat, bytes: Bytes) {
    Admitted(fmt, payloads + [last]) && 0 < k < |last| + 8 && bytes == Stream(fmt, payloads) + Frame(fmt, last)[..k]
  }

  /** Recovery reads the whole frames of any such file; the send loop reads it unless it is torn. */
  lemma FileReads<R>(fmt: Format<R>, payloads: seq<Bytes>, torn: bool, bytes: Bytes)
    requires FileOf(fmt, payloads, torn, bytes)
    ensures forall p :: p in payloads ==> fmt.decode(p).Some?
    ensures ReadFile(fmt, bytes, true) == Entries(Records(fmt, payloads))
    ensures ReadFile(fmt, bytes, false) == if torn then Unreadable else Entries(Records(fmt, payloads))
  {
    hide Writable, Stream, Frame, ReadAll, Records;
    var n := |payloads|;
    if torn {
      var last, k :| TornAt(fmt, payloads, last, k, bytes);
      var all := payloads + [last];
      StreamAppend(fmt, payloads, [last]);
      OneFrame(fmt, last);
      assert all[..n] == payloads && all[..n + 1] == all;
      AdmittedFits(fmt, all);
      assert bytes == Stream(fmt, all)[..|Stream(fmt, payloads)| + k];
      CutStreamReads(fmt, all, n, |Stream(fmt, payloads)| + k, MAX_ENTRIES);
    } else {
      assert payloads[..n] == payloads && bytes == Stream(fmt, payloads)[..|bytes|];
      AdmittedFits(fmt, payloads);
      CutStreamReads(fmt, payloads, n, |bytes|, MAX_ENTRIES);
    }
  }

  lemma OneFrame<R>(fmt: Format<R>, payload: Bytes)
    ensures Stream(fmt, [payload]) == Frame(fmt, payload)
  {
    assert [payload][1..] == [];
  }
}
