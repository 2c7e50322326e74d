/** Adler-32 as section 2.2 of RFC 1950 defines it. */
module Adler {
  import opened Bytes

  const BASE := 65521

  function Plus(a: nat, b: nat): (s: nat)
    ensures s < BASE
  {
    (a + b) % BASE
  }

  function S1(bytes: seq<Byte>): (s: nat)
    ensures s < BASE
  {
    if bytes == [] then 1 else Plus(S1(bytes[..|bytes| - 1]), bytes[|bytes| - 1])
  }

  function S2(bytes: seq<Byte>): (s: nat)
    ensures s < BASE
  {
    if bytes == [] then 0 else Plus(S2(bytes[..|bytes| - 1]), S1(bytes))
  }

  function Adler32(bytes: seq<Byte>): (sum: nat)
    ensures sum < 0x1_0000_0000
  {
    S2(bytes) * 65536 + S1(bytes)
  }

  function Sum(bytes: seq<Byte>): nat {
    if bytes == [] then 0 else bytes[0] + Sum(bytes[1..])
  }

  /** Each byte as often as there are bytes from it to the end. */
  function WeightedSum(bytes: seq<Byte>): nat {
    if bytes == [] then 0 else |bytes| * bytes[0] + WeightedSum(bytes[1..])
  }

  lemma OneMore(n: nat, x: nat)
    ensures (n + 1) * x == n * x + x
  {
  }

  lemma {:induction false} SumsAppend(bytes: seq<Byte>, x: Byte)
    ensures Sum(bytes + [x]) == Sum(bytes) + x
    ensures WeightedSum(bytes + [x]) == WeightedSum(bytes) + Sum(bytes) + x
  {
    if bytes == [] {
      assert bytes + [x] == [x] && [x][1..] == [];
    } else {
      SumsAppend(bytes[1..], x);
      assert (bytes + [x])[1..] == bytes[1..] + [x];
      OneMore(|bytes|, bytes[0]);
    }
  }

  lemma WholeBases(k: nat, r: nat)
    ensures (BASE * k + r) % BASE == r % BASE
  {
  }

  function Reduced(n: nat): nat {
    n % BASE
  }

  lemma PlusReduced(a: nat, b: nat)
    ensures Plus(Reduced(a), Reduced(b)) == Reduced(a + b) && (b < BASE ==> Reduced(b) == b)
  {
    WholeBases(a / BASE + b / BASE, a % BASE + b % BASE);
  }

  lemma {:induction false} SumsClosed(bytes: seq<Byte>)
    ensures S1(bytes) == Reduced(1 + Sum(bytes)) && S2(bytes) == Reduced(|bytes| + WeightedSum(bytes))
  {
    if bytes != [] {
      hide Plus, S1, S2, Sum, WeightedSum, Reduced;
      var front, x := bytes[..|bytes| - 1], bytes[|bytes| - 1];
      assert bytes == front + [x];
      SumsClosed(front);
      SumsAppend(front, x);
      SumsStep(front, x);
      PlusReduced(1 + Sum(front), x);
      PlusReduced(|front| + WeightedSum(front), 1 + Sum(bytes));
      assert 1 + Sum(front) + x == 1 + Sum(bytes);
      assert |front| + WeightedSum(front) + (1 + Sum(bytes)) == |bytes| + WeightedSum(bytes);
    }
  }

  /** The low half is one plus the sum of the bytes, the high half the sum of all the low halves on the way. */
  lemma AdlerClosed(bytes: seq<Byte>)
    ensures Adler32(bytes) % 65536 == (1 + Sum(bytes)) % 65521
    ensures Adler32(bytes) / 65536 == (|bytes| + WeightedSum(bytes)) % 65521
  {
    hide S1, S2, Sum, WeightedSum;
    SumsClosed(bytes);
  }

  lemma AdlerDiffers(a: seq<Byte>, b: seq<Byte>)
    requires S1(a) != S1(b) || S2(a) != S2(b)
    ensures Adler32(a) != Adler32(b)
  {
    hide S1, S2;
  }

  lemma SumsStep(front: seq<Byte>, x: Byte)
    ensures S1(front + [x]) == Plus(S1(front), x)
    ensures S2(front + [x]) == Plus(S2(front), S1(front + [x]))
  {
    hide Plus;
  }

  lemma ShiftKeepsDifference(x: nat, y: nat, d: nat)
    requires x < BASE && y < BASE && x != y
    ensures Plus(x, d) != Plus(y, d) && Plus(d, x) != Plus(d, y)
  {
  }

  /** Appending the same bytes keeps a difference in the first sum. */
  lemma {:induction false} FirstSumDiffers(a: seq<Byte>, b: seq<Byte>, rest: seq<Byte>)
    requires S1(a) != S1(b)
    ensures S1(a + rest) != S1(b + rest)
  {
    hide S1, S2, Plus;
    if rest == [] {
      assert a + rest == a && b + rest == b;
    } else {
      var front, last := rest[..|rest| - 1], rest[|rest| - 1];
      FirstSumDiffers(a, b, front);
      assert a + rest == (a + front) + [last] && b + rest == (b + front) + [last];
      SumsStep(a + front, last);
      SumsStep(b + front, last);
      ShiftKeepsDifference(S1(a + front), S1(b + front), last);
    }
  }

  /** Appending the same bytes keeps equal first sums equal and different second sums different. */
  lemma {:induction false} SecondSumDiffers(a: seq<Byte>, b: seq<Byte>, rest: seq<Byte>)
    requires S1(a) == S1(b) && S2(a) != S2(b)
    ensures S1(a + rest) == S1(b + rest) && S2(a + rest) != S2(b + rest)
  {
    hide S1, S2, Plus;
    if rest == [] {
      assert a + rest == a && b + rest == b;
    } else {
      var front, last := rest[..|rest| - 1], rest[|rest| - 1];
      SecondSumDiffers(a, b, front);
      assert a + rest == (a + front) + [last] && b + rest == (b + front) + [last];
      SumsStep(a + front, last);
      SumsStep(b + front, last);
      ShiftKeepsDifference(S2(a + front), S2(b + front), S1(a + rest));
    }
  }

  lemma LastByteDiffers(front: seq<Byte>, x: Byte, y: Byte)
    requires x != y
    ensures S1(front + [x]) != S1(front + [y])
  {
  }

  lemma SmallShiftsDiffer(s: nat, x: nat, y: nat)
    requires s < BASE && x < 256 && y < 256 && x != y
    ensures Plus(s, x) != Plus(s, y)
  {
  }

  /** Changing any one byte changes the checksum. */
  lemma OneByteDetected(bytes: seq<Byte>, i: nat, x: Byte)
    requires i < |bytes| && x != bytes[i]
    ensures Adler32(bytes[i := x]) != Adler32(bytes)
  {
    var front, rest := bytes[..i], bytes[i + 1..];
    assert bytes == front + [bytes[i]] + rest && bytes[i := x] == front + [x] + rest;
    LastByteDiffers(front, bytes[i], x);
    FirstSumDiffers(front + [bytes[i]], front + [x], rest);
    AdlerDiffers(bytes, bytes[i := x]);
  }

  lemma AddInAnyOrder(s: nat, x: nat, y: nat)
    ensures Plus(Plus(s, x), y) == Plus(Plus(s, y), x)
  {
    PlusTwice(s, x, y);
    PlusTwice(s, y, x);
  }

  lemma PlusTwice(s: nat, x: nat, y: nat)
    ensures Plus(Plus(s, x), y) == (s + x + y) % BASE
  {
  }

  lemma SwappedPair(front: seq<Byte>, x: Byte, y: Byte)
    requires x != y
    ensures S1(front + [x] + [y]) == S1(front + [y] + [x]) && S2(front + [x] + [y]) != S2(front + [y] + [x])
  {
    hide S1, S2, Plus;
    SumsStep(front, x);
    SumsStep(front, y);
    SumsStep(front + [x], y);
    SumsStep(front + [y], x);
    AddInAnyOrder(S1(front), x, y);
    SmallShiftsDiffer(S1(front), x, y);
    ShiftKeepsDifference(S1(front + [x]), S1(front + [y]), S2(front));
    ShiftKeepsDifference(S2(front + [x]), S2(front + [y]), S1(front + [x] + [y]));
  }

  /** Swapping two different neighbouring bytes changes the checksum. */
  lemma TranspositionDetected(bytes: seq<Byte>, i: nat)
    requires i + 1 < |bytes| && bytes[i] != bytes[i + 1]
    ensures Adler32(bytes[i := bytes[i + 1]][i + 1 := bytes[i]]) != Adler32(bytes)
  {
    hide S1, S2;
    var front, rest, x, y := bytes[..i], bytes[i + 2..], bytes[i], bytes[i + 1];
    var swapped := bytes[i := y][i + 1 := x];
    assert bytes == front + [x] + [y] + rest && swapped == front + [y] + [x] + rest;
    SwappedPair(front, x, y);
    SecondSumDiffers(front + [x] + [y], front + [y] + [x], rest);
    AdlerDiffers(bytes, swapped);
  }
}

/** The length-prefixed, checksummed frames of src/muduo/net/protobuf/ProtobufCodecLite.cc. */
module Framing {
  import opened Wrappers
  import opened Bytes
  import opened Endian
  import opened Adler

  const HEADER_LEN := 4
  const CHECKSUM_LEN := 4
  const MAX_MESSAGE_LEN := 64 * 1024 * 1024

  datatype ErrorCode = InvalidLength | ChecksumError | UnknownMessageType | ParseError

  /** `parses` is the protobuf parser on a payload; `wanted` is the raw callback on a whole frame. */
  datatype Codec = Codec(tag: seq<Byte>, parses: seq<Byte> -> bool, wanted: seq<Byte> -> bool)

  function MinMessageLen(c: Codec): nat {
    |c.tag| + CHECKSUM_LEN
  }

  const INT32_MAX := 0x7FFF_FFFF
  const TWO_TO_THE_32 := 0x1_0000_0000

  /** A number as the int32_t that goes on the wire: what does not fit wraps around. */
  function Int32(n: nat): (x: int)
    ensures Fits(x, 4) && (n <= INT32_MAX ==> x == n)
  {
    assert Pow256(4) == TWO_TO_THE_32 by { Pow256Of4(); }
    var low := n % TWO_TO_THE_32;
    if low > INT32_MAX then low - TWO_TO_THE_32 else low
  }

  function Checksum(bytes: seq<Byte>): (sum: int)
    ensures Fits(sum, 4)
  {
    Int32(Adler32(bytes))
  }

  lemma Pow256Of4()
    ensures Pow256(4) == 0x1_0000_0000
  {
  }

  predicate ChecksumValid(body: seq<Byte>)
    requires |body| >= CHECKSUM_LEN
  {
    DecodeInt(body[|body| - CHECKSUM_LEN..]) == Checksum(body[..|body| - CHECKSUM_LEN])
  }

  /** parse(): the payload of a frame body, or why there is none. */
  function Parse(c: Codec, body: seq<Byte>): Option<ErrorCode>
    requires |body| >= MinMessageLen(c)
  {
    if !ChecksumValid(body) then Some(ChecksumError)
    else if body[..|c.tag|] != c.tag then Some(UnknownMessageType)
    else if c.parses(body[|c.tag|..|body| - CHECKSUM_LEN]) then None
    else Some(ParseError)
  }

  function Payload(c: Codec, body: seq<Byte>): seq<Byte>
    requires |body| >= MinMessageLen(c)
  {
    body[|c.tag|..|body| - CHECKSUM_LEN]
  }

  /** What one pass of the loop in onMessage does with the head of the buffer. */
  datatype Head = NeedMore | Bad(error: ErrorCode) | Unwanted(len: nat) | Whole(len: nat, payload: seq<Byte>)

  function HeadOf(c: Codec, bytes: seq<Byte>): (h: Head)
    ensures h.Unwanted? || h.Whole? ==> MinMessageLen(c) + HEADER_LEN <= h.len <= |bytes|
  {
    if |bytes| < MinMessageLen(c) + HEADER_LEN then NeedMore
    else
      var len := DecodeInt(bytes[..HEADER_LEN]);
      if len > MAX_MESSAGE_LEN || len < MinMessageLen(c) then Bad(InvalidLength)
      else if |bytes| < HEADER_LEN + len then NeedMore
      else if !c.wanted(bytes[..HEADER_LEN + len]) then Unwanted(HEADER_LEN + len)
      else
        var body := bytes[HEADER_LEN..HEADER_LEN + len];
        match Parse(c, body)
        case None => Whole(HEADER_LEN + len, Payload(c, body))
        case Some(error) => Bad(error)
  }

  datatype Decoded = Decoded(messages: seq<seq<Byte>>, rest: seq<Byte>, error: Option<ErrorCode>)

  /** Everything onMessage does with a buffer: the payloads it delivers, what it leaves, and any error. */
  function Decode(c: Codec, bytes: seq<Byte>): Decoded
    decreases |bytes|
  {
    match HeadOf(c, bytes)
    case NeedMore => Decoded([], bytes, None)
    case Bad(error) => Decoded([], bytes, Some(error))
    case Unwanted(len) => Decode(c, bytes[len..])
    case Whole(len, payload) =>
      var d := Decode(c, bytes[len..]);
      d.(messages := [payload] + d.messages)
  }

  function Feed(c: Codec, buffer: seq<Byte>, chunks: seq<seq<Byte>>): Decoded
    decreases |chunks|
  {
    if chunks == [] then Decoded([], buffer, None)
    else
      var d := Decode(c, buffer + chunks[0]);
      if |chunks| == 1 then d
      else
        var later := Feed(c, d.rest, chunks[1..]);
        later.(messages := d.messages + later.messages)
  }

  /** The reader waits for more exactly when the header or, with a length within the limits, the body is incomplete. */
  lemma WaitsExactly(c: Codec, bytes: seq<Byte>)
    ensures HeadOf(c, bytes).NeedMore? <==>
              || |bytes| < |c.tag| + 8
              || (|c.tag| + 4 <= DecodeInt(bytes[..4]) <= 64 * 1024 * 1024 && |bytes| - 4 < DecodeInt(bytes[..4]))
  {
    hide DecodeInt, Parse;
  }

  /** A length outside the limits is refused at once, and nothing is consumed. */
  lemma BadLengthRefused(c: Codec, bytes: seq<Byte>)
    requires |bytes| >= |c.tag| + 8
    requires !(|c.tag| + 4 <= DecodeInt(bytes[..4]) <= 64 * 1024 * 1024)
    ensures Decode(c, bytes) == Decoded([], bytes, Some(InvalidLength))
  {
    hide DecodeInt;
  }

  /** More bytes never change what is made of a head that is complete or bad. */
  lemma HeadStable(c: Codec, a: seq<Byte>, b: seq<Byte>)
    requires !HeadOf(c, a).NeedMore?
    ensures HeadOf(c, a + b) == HeadOf(c, a)
  {
    hide DecodeInt, Parse, Payload;
    assert (a + b)[..HEADER_LEN] == a[..HEADER_LEN];
    var len := DecodeInt(a[..HEADER_LEN]);
    if MinMessageLen(c) <= len <= MAX_MESSAGE_LEN && |a| >= HEADER_LEN + len {
      assert (a + b)[..HEADER_LEN + len] == a[..HEADER_LEN + len];
      assert (a + b)[HEADER_LEN..HEADER_LEN + len] == a[HEADER_LEN..HEADER_LEN + len];
    }
  }

  /** Decoding can stop anywhere and go on with what was left. */
  lemma {:induction false} DecodeResumes(c: Codec, a: seq<Byte>, b: seq<Byte>)
    ensures var d := Decode(c, a);
            var later := Decode(c, d.rest + b);
            Decode(c, a + b) == later.(messages := d.messages + later.messages)
    decreases |a|
  {
    hide HeadOf, Decode;
    var h := HeadOf(c, a);
    DecodeStep(c, a);
    if h.Unwanted? || h.Whole? {
      HeadStable(c, a, b);
      HeadLen(c, a);
      DecodeStep(c, a + b);
      assert (a + b)[h.len..] == a[h.len..] + b;
      DecodeResumes(c, a[h.len..], b);
      if h.Whole? {
        var d := Decode(c, a[h.len..]);
        var later := Decode(c, d.rest + b);
        assert [h.payload] + (d.messages + later.messages) == ([h.payload] + d.messages) + later.messages;
      }
    } else {
      assert [] + Decode(c, a + b).messages == Decode(c, a + b).messages;
    }
  }

  lemma DecodeStep(c: Codec, bytes: seq<Byte>)
    ensures var h, d := HeadOf(c, bytes), Decode(c, bytes);
            && (h.NeedMore? ==> d == Decoded([], bytes, None))
            && (h.Bad? ==> d == Decoded([], bytes, Some(h.error)))
            && (h.Unwanted? ==> h.len <= |bytes| && d == Decode(c, bytes[h.len..]))
            && (h.Whole? ==>
                  && h.len <= |bytes|
                  && d == Decode(c, bytes[h.len..]).(messages := [h.payload] + Decode(c, bytes[h.len..]).messages))
  {
  }

  lemma HeadLen(c: Codec, bytes: seq<Byte>)
    ensures var h := HeadOf(c, bytes);
            h.Unwanted? || h.Whole? ==> 0 < h.len <= |bytes|
  {
  }

  /** An error leaves the head in place and stops all later delivery. */
  lemma {:induction false} ErrorIsFinal(c: Codec, a: seq<Byte>, b: seq<Byte>)
    requires Decode(c, a).error.Some?
    ensures Decode(c, a + b).messages == Decode(c, a).messages
    ensures Decode(c, a + b).error == Decode(c, a).error
    ensures Decode(c, a + b).rest == Decode(c, a).rest + b
    decreases |a|
  {
    hide HeadOf;
    var h := HeadOf(c, a);
    HeadStable(c, a, b);
    HeadLen(c, a);
    if h.Unwanted? || h.Whole? {
      assert (a + b)[h.len..] == a[h.len..] + b;
      ErrorIsFinal(c, a[h.len..], b);
    }
  }

  /**
   * The messages delivered, the bytes left and the error at the end depend only on the bytes received,
   * not on how the reads cut them.
   */
  lemma {:induction false} CutsDoNotMatter(c: Codec, buffer: seq<Byte>, chunks: seq<seq<Byte>>)
    requires chunks != []
    ensures Feed(c, buffer, chunks) == Decode(c, buffer + Flatten(chunks))
    decreases |chunks|
  {
    hide Decode, Flatten;
    FlattenFirst(chunks);
    var d := Decode(c, buffer + chunks[0]);
    if |chunks| == 1 {
      assert chunks[1..] == [] && Flatten([]) == [] by { EmptyFlatten(); }
      assert buffer + Flatten(chunks) == buffer + chunks[0];
    } else {
      CutsDoNotMatter(c, d.rest, chunks[1..]);
      DecodeResumes(c, buffer + chunks[0], Flatten(chunks[1..]));
      assert buffer + Flatten(chunks) == buffer + chunks[0] + Flatten(chunks[1..]);
    }
  }

  // ---- encoding

  /** The payload fits the 64 MiB limit together with its tag and checksum. */
  predicate Sendable(c: Codec, payload: seq<Byte>) {
    |c.tag| + |payload| + CHECKSUM_LEN <= MAX_MESSAGE_LEN
  }

  function Body(c: Codec, payload: seq<Byte>): (body: seq<Byte>)
    ensures |body| == |c.tag| + |payload| + CHECKSUM_LEN
  {
    c.tag + payload + EncodeInt(Checksum(c.tag + payload), 4)
  }

  function Frame(c: Codec, payload: seq<Byte>): (frame: seq<Byte>)
    ensures |frame| == HEADER_LEN + |c.tag| + |payload| + CHECKSUM_LEN
  {
    EncodeInt(Int32(|Body(c, payload)|), 4) + Body(c, payload)
  }

  lemma BodySplits(c: Codec, payload: seq<Byte>)
    ensures var body := Body(c, payload);
            && body[..|c.tag|] == c.tag
            && body[|c.tag|..|body| - CHECKSUM_LEN] == payload
            && body[..|body| - CHECKSUM_LEN] == c.tag + payload
            && body[|body| - CHECKSUM_LEN..] == EncodeInt(Checksum(c.tag + payload), 4)
  {
  }

  lemma BodyParses(c: Codec, payload: seq<Byte>)
    ensures Parse(c, Body(c, payload)) == (if c.parses(payload) then None else Some(ParseError))
    ensures Payload(c, Body(c, payload)) == payload
  {
    hide Checksum, EncodeInt, DecodeInt, Body, Fits;
    BodySplits(c, payload);
    IntRoundTrip(Checksum(c.tag + payload), 4);
  }

  lemma FrameSplits(c: Codec, payload: seq<Byte>, rest: seq<Byte>)
    ensures var bytes := Frame(c, payload) + rest;
            && bytes[..HEADER_LEN] == Frame(c, payload)[..HEADER_LEN]
            && DecodeInt(bytes[..HEADER_LEN]) == Int32(|Body(c, payload)|)
            && bytes[..HEADER_LEN + |Body(c, payload)|] == Frame(c, payload)
            && bytes[HEADER_LEN..HEADER_LEN + |Body(c, payload)|] == Body(c, payload)
            && bytes[HEADER_LEN + |Body(c, payload)|..] == rest
  {
    hide Body, EncodeInt, DecodeInt, Fits, Int32;
    IntRoundTrip(Int32(|Body(c, payload)|), 4);
    var header := EncodeInt(Int32(|Body(c, payload)|), 4);
    assert (Frame(c, payload) + rest)[..HEADER_LEN] == header;
  }

  /** A well-formed frame at the head is delivered, or skipped if the raw callback does not want it. */
  lemma FrameHead(c: Codec, payload: seq<Byte>, rest: seq<Byte>)
    requires Sendable(c, payload) && c.parses(payload)
    ensures HeadOf(c, Frame(c, payload) + rest)
            == (if c.wanted(Frame(c, payload)) then Whole(|Frame(c, payload)|, payload)
                else Unwanted(|Frame(c, payload)|))
  {
    hide Body, DecodeInt, Parse, Payload, Frame;
    FrameSplits(c, payload, rest);
    BodyParses(c, payload);
  }

  lemma OversizeWraps(n: nat)
    requires MAX_MESSAGE_LEN < n < TWO_TO_THE_32
    ensures Int32(n) < 0 || Int32(n) > MAX_MESSAGE_LEN
  {
  }

  /** The reader refuses every frame whose body is beyond the limit and below 4 GiB, and keeps it in the buffer. */
  lemma OversizeRefused(c: Codec, payload: seq<Byte>)
    requires !Sendable(c, payload) && |c.tag| + |payload| + CHECKSUM_LEN < TWO_TO_THE_32
    ensures Decode(c, Frame(c, payload)) == Decoded([], Frame(c, payload), Some(InvalidLength))
  {
    hide Frame, DecodeInt, Int32;
    var frame := Frame(c, payload);
    FrameSplits(c, payload, []);
    OversizeWraps(|Body(c, payload)|);
    assert frame + [] == frame;
    assert HeadOf(c, frame) == Bad(InvalidLength);
  }

  /** Whatever the reader delivers is within the limit. */
  lemma {:induction false} DeliveredWithinLimit(c: Codec, bytes: seq<Byte>)
    ensures forall m | m in Decode(c, bytes).messages :: Sendable(c, m)
    decreases |bytes|
  {
    hide HeadOf, Decode;
    var h := HeadOf(c, bytes);
    DecodeStep(c, bytes);
    HeadLen(c, bytes);
    if h.Unwanted? || h.Whole? {
      DeliveredWithinLimit(c, bytes[h.len..]);
      if h.Whole? {
        HeadWithinLimit(c, bytes);
      }
    }
  }

  lemma HeadWithinLimit(c: Codec, bytes: seq<Byte>)
    requires HeadOf(c, bytes).Whole?
    ensures Sendable(c, HeadOf(c, bytes).payload)
  {
    hide DecodeInt, Parse;
  }

  lemma SendableDecodes(c: Codec, payload: seq<Byte>)
    requires Sendable(c, payload) && c.parses(payload) && c.wanted(Frame(c, payload))
    ensures Decode(c, Frame(c, payload)) == Decoded([payload], [], None)
  {
    hide Frame, HeadOf;
    var frame := Frame(c, payload);
    FrameHead(c, payload, []);
    assert frame + [] == frame && frame[|frame|..] == [];
    EmptyNeedsMore(c);
  }

  /**
   * A frame can be written beyond the limit that the reader refuses, and beyond what its length field can say: one
   * that is wanted and parses comes back exactly when it is within the limit.
   */
  lemma FrameRoundTripExactly(c: Codec, payload: seq<Byte>)
    requires c.parses(payload) && c.wanted(Frame(c, payload))
    ensures Decode(c, Frame(c, payload)) == Decoded([payload], [], None) <==> Sendable(c, payload)
  {
    hide Frame, Decode;
    if Sendable(c, payload) {
      SendableDecodes(c, payload);
    } else {
      DeliveredWithinLimit(c, Frame(c, payload));
      assert payload in [payload];
    }
  }

  /** With a four-byte tag, 64 MiB of zeros can be framed and are refused. */
  lemma ZerosRefused(c: Codec)
    requires |c.tag| == 4
    ensures var zeros := seq(MAX_MESSAGE_LEN, _ => 0);
            && !Sendable(c, zeros)
            && Decode(c, Frame(c, zeros)).error == Some(InvalidLength) && Decode(c, Frame(c, zeros)).messages == []
  {
    hide Frame, Decode;
    OversizeRefused(c, seq(MAX_MESSAGE_LEN, _ => 0));
  }

  ghost predicate AllSendable(c: Codec, payloads: seq<seq<Byte>>) {
    forall i | 0 <= i < |payloads| :: Sendable(c, payloads[i]) && c.parses(payloads[i])
  }

  function Frames(c: Codec, payloads: seq<seq<Byte>>): seq<Byte>
    requires forall i | 0 <= i < |payloads| :: Sendable(c, payloads[i])
  {
    if payloads == [] then [] else
    assert Sendable(c, payloads[0]);
    Frame(c, payloads[0]) + Frames(c, payloads[1..])
  }

  /** The payloads whose frames the raw callback lets through. */
  function Wanted(c: Codec, payloads: seq<seq<Byte>>): seq<seq<Byte>>
    requires forall i | 0 <= i < |payloads| :: Sendable(c, payloads[i])
  {
    if payloads == [] then [] else
    assert Sendable(c, payloads[0]);
    (if c.wanted(Frame(c, payloads[0])) then [payloads[0]] else []) + Wanted(c, payloads[1..])
  }

  /** Any list of payloads framed one after the other decodes to exactly that list, and nothing is left. */
  lemma {:induction false} FramesRoundTrip(c: Codec, payloads: seq<seq<Byte>>)
    requires AllSendable(c, payloads)
    ensures Decode(c, Frames(c, payloads)) == Decoded(Wanted(c, payloads), [], None)
  {
    hide HeadOf, Frame;
    if payloads == [] {
      EmptyNeedsMore(c);
    } else {
      var rest := Frames(c, payloads[1..]);
      FrameHead(c, payloads[0], rest);
      FramesRoundTrip(c, payloads[1..]);
      assert (Frame(c, payloads[0]) + rest)[|Frame(c, payloads[0])|..] == rest;
    }
  }

  /** A body of any bytes behind its length. */
  function Enclosed(body: seq<Byte>): (frame: seq<Byte>)
    ensures |frame| == HEADER_LEN + |body|
  {
    EncodeInt(Int32(|body|), 4) + body
  }

  lemma EnclosedSplits(body: seq<Byte>, rest: seq<Byte>)
    requires |body| <= MAX_MESSAGE_LEN
    ensures var bytes := Enclosed(body) + rest;
            && DecodeInt(bytes[..HEADER_LEN]) == |body| && bytes[..HEADER_LEN + |body|] == Enclosed(body)
            && bytes[HEADER_LEN..HEADER_LEN + |body|] == body
  {
    hide EncodeInt, DecodeInt, Fits;
    var header := EncodeInt(Int32(|body|), 4);
    IntRoundTrip(Int32(|body|), 4);
    assert (Enclosed(body) + rest)[..HEADER_LEN] == header;
  }

  /**
   * What becomes of a whole frame, whatever its body: skipped if not wanted, refused with the reason if the checksum,
   * the tag or the payload is bad, in that order, and delivered otherwise.
   */
  lemma FrameOutcome(c: Codec, body: seq<Byte>, rest: seq<Byte>)
    requires |c.tag| + 4 <= |body| <= 64 * 1024 * 1024
    ensures var h, n := HeadOf(c, Enclosed(body) + rest), |body| - 4;
            var sound := DecodeInt(body[n..]) == Int32(Adler32(body[..n]));
            h == if !c.wanted(Enclosed(body)) then Unwanted(4 + |body|)
                 else if !sound then Bad(ChecksumError)
                 else if body[..|c.tag|] != c.tag then Bad(UnknownMessageType)
                 else if !c.parses(body[|c.tag|..n]) then Bad(ParseError)
                 else Whole(4 + |body|, body[|c.tag|..n])
  {
    hide DecodeInt, Adler32, Int32, Enclosed;
    EnclosedSplits(body, rest);
  }

  lemma EmptyNeedsMore(c: Codec)
    ensures HeadOf(c, []) == NeedMore
  {
  }

  lemma Pieces(header: seq<Byte>, covered: seq<Byte>, sum: seq<Byte>, rest: seq<Byte>)
    ensures var bytes, body := header + covered + sum + rest, covered + sum;
            && bytes[..|header|] == header && bytes[|header|..|header| + |body|] == body
            && bytes[..|header| + |body|] == header + covered + sum
            && body[..|covered|] == covered && body[|covered|..] == sum
  {
  }

  lemma ChecksumsDiffer(a: seq<Byte>, b: seq<Byte>)
    requires Adler32(a) != Adler32(b)
    ensures Checksum(a) != Checksum(b)
  {
    hide Adler32;
  }

  /** A frame body whose tag and payload differ from those its checksum was taken over is refused. */
  lemma WrongBodyRefused(c: Codec, payload: seq<Byte>, altered: seq<Byte>, rest: seq<Byte>)
    requires Sendable(c, payload) && |altered| == |c.tag + payload|
    requires Adler32(altered) != Adler32(c.tag + payload)
    requires c.wanted(Frame(c, payload)[..HEADER_LEN] + altered + EncodeInt(Checksum(c.tag + payload), 4))
    ensures var frame := Frame(c, payload)[..HEADER_LEN] + altered + EncodeInt(Checksum(c.tag + payload), 4);
            Decode(c, frame + rest) == Decoded([], frame + rest, Some(ChecksumError))
  {
    hide Checksum, EncodeInt, DecodeInt, Frame, Adler32, Int32;
    var sum := Checksum(c.tag + payload);
    var body := altered + EncodeInt(sum, 4);
    var bytes := Frame(c, payload)[..HEADER_LEN] + altered + EncodeInt(sum, 4) + rest;
    ChecksumsDiffer(altered, c.tag + payload);
    FrameSplits(c, payload, rest);
    IntRoundTrip(sum, 4);
    Pieces(Frame(c, payload)[..HEADER_LEN], altered, EncodeInt(sum, 4), rest);
    assert |body| == |Body(c, payload)|;
    assert Parse(c, body) == Some(ChecksumError);
    hide Parse;
    assert HeadOf(c, bytes) == Bad(ChecksumError);
  }

  /** Changing exactly one byte of the tag or payload of a frame always gives a checksum error. */
  lemma CorruptByteRefused(c: Codec, payload: seq<Byte>, i: nat, x: Byte, rest: seq<Byte>)
    requires Sendable(c, payload) && i < |c.tag + payload| && x != (c.tag + payload)[i]
    requires c.wanted(Frame(c, payload)[HEADER_LEN + i := x])
    ensures var frame := Frame(c, payload)[HEADER_LEN + i := x];
            Decode(c, frame + rest) == Decoded([], frame + rest, Some(ChecksumError))
  {
    hide Decode, Checksum, EncodeInt, Adler32;
    var covered := c.tag + payload;
    OneByteDetected(covered, i, x);
    FrameUpdate(c, payload, covered[i := x], i, x);
    WrongBodyRefused(c, payload, covered[i := x], rest);
  }

  lemma FrameUpdate(c: Codec, payload: seq<Byte>, altered: seq<Byte>, i: nat, x: Byte)
    requires i < |c.tag + payload| && altered == (c.tag + payload)[i := x]
    ensures Frame(c, payload)[HEADER_LEN + i := x]
            == Frame(c, payload)[..HEADER_LEN] + altered + EncodeInt(Checksum(c.tag + payload), 4)
  {
  }
}

/** The codec's methods on a network buffer. */
module ProtobufCodecLite {
  import opened Wrappers
  import opened Bytes
  import opened Endian
  import opened Framing
  import NetBuffer

  /** serializeToBuffer: the payload goes straight to the writable area. */
  method SerializeToBuffer(buf: NetBuffer.Buffer, payload: seq<Byte>)
    requires buf.Valid()
    modifies buf, buf.buffer
    ensures buf.Valid() && buf.Contents() == old(buf.Contents()) + payload
    ensures buf.buffer == old(buf.buffer) || fresh(buf.buffer)
    ensures buf.readerIndex == old(buf.readerIndex) || buf.readerIndex == NetBuffer.CHEAP_PREPEND
  {
    buf.EnsureWritableBytes(|payload| + CHECKSUM_LEN);
    buf.AppendInPlace(payload);
  }

  /** Tag, payload and checksum. */
  method AppendBody(c: Codec, buf: NetBuffer.Buffer, payload: seq<Byte>)
    requires buf.Valid() && buf.Contents() == []
    modifies buf, buf.buffer
    ensures buf.Valid() && buf.Contents() == Body(c, payload)
    ensures buf.buffer == old(buf.buffer) || fresh(buf.buffer)
    ensures buf.readerIndex == old(buf.readerIndex) || buf.readerIndex == NetBuffer.CHEAP_PREPEND
  {
    hide EncodeInt, Checksum, Fits;
    buf.Append(c.tag);
    SerializeToBuffer(buf, payload);
    assert buf.Contents() == c.tag + payload;
    buf.AppendInt(Checksum(c.tag + payload), 4);
  }

  /** Frames a payload in an empty buffer: the body, and the length in front. */
  method FillEmptyBuffer(c: Codec, buf: NetBuffer.Buffer, payload: seq<Byte>)
    requires buf.Valid() && buf.Contents() == [] && buf.PrependableBytes() >= HEADER_LEN
    modifies buf, buf.buffer
    ensures buf.Valid() && buf.Contents() == Frame(c, payload)
  {
    hide EncodeInt, Body, Fits, Int32;
    AppendBody(c, buf, payload);
    buf.PrependInt(Int32(buf.ReadableBytes()), 4);
  }

  /** parse() on a frame body: checksum first, then the tag, then the parser. */
  method ParseBody(c: Codec, body: seq<Byte>) returns (error: Option<ErrorCode>)
    requires |body| >= MinMessageLen(c)
    ensures error == Parse(c, body)
    ensures error == None ==> body == c.tag + Payload(c, body) + body[|body| - CHECKSUM_LEN..]
    ensures error == Some(ChecksumError) <==> !ChecksumValid(body)
  {
    hide ChecksumValid;
    error := None;
    if ChecksumValid(body) {
      if body[..|c.tag|] == c.tag {
        if !c.parses(body[|c.tag|..|body| - CHECKSUM_LEN]) {
          error := Some(ParseError);
        }
      } else {
        error := Some(UnknownMessageType);
      }
    } else {
      error := Some(ChecksumError);
    }
  }

  /** The length field at the head of the buffer. */
  method PeekLength(buf: NetBuffer.Buffer) returns (len: int)
    requires buf.Valid() && buf.ReadableBytes() >= HEADER_LEN
    ensures len == DecodeInt(buf.Contents()[..HEADER_LEN])
  {
    hide DecodeInt, EncodeInt, Fits;
    len := buf.PeekInt(HEADER_LEN);
    IntRoundTrip(len, HEADER_LEN);
  }

  /** Looks at the head of the buffer: is a frame there, is its length sane, is it wanted, does it parse? */
  method ReadHead(c: Codec, buf: NetBuffer.Buffer) returns (head: Head)
    requires buf.Valid()
    ensures head == HeadOf(c, buf.Contents())
  {
    hide DecodeInt, Parse, Payload;
    if buf.ReadableBytes() < MinMessageLen(c) + HEADER_LEN {
      return NeedMore;
    }
    var len := PeekLength(buf);
    if len > MAX_MESSAGE_LEN || len < MinMessageLen(c) {
      return Bad(InvalidLength);
    }
    if buf.ReadableBytes() < HEADER_LEN + len {
      return NeedMore;
    }
    var frame := buf.Peek(HEADER_LEN + len);
    if !c.wanted(frame) {
      return Unwanted(HEADER_LEN + len);
    }
    var body := frame[HEADER_LEN..];
    assert body == buf.Contents()[HEADER_LEN..HEADER_LEN + len];
    var errorCode := ParseBody(c, body);
    head := if errorCode == None then Whole(HEADER_LEN + len, Payload(c, body)) else Bad(errorCode.value);
  }

  /** Delivers the messages at the front of the buffer; an error is reported and left in place. */
  method OnMessage(c: Codec, buf: NetBuffer.Buffer) returns (messages: seq<seq<Byte>>, error: Option<ErrorCode>)
    requires buf.Valid()
    modifies buf
    ensures buf.Valid() && Decoded(messages, buf.Contents(), error) == Decode(c, old(buf.Contents()))
  {
    hide Decode, HeadOf;
    messages, error := [], None;
    while true
      invariant buf.Valid() && buf.buffer == old(buf.buffer) && error == None
      invariant Resumed(messages, Decode(c, buf.Contents())) == Decode(c, old(buf.Contents()))
      decreases buf.ReadableBytes()
    {
      DecodeStep(c, buf.Contents());
      HeadLen(c, buf.Contents());
      var head := ReadHead(c, buf);
      match head {
        case NeedMore =>
          break;
        case Bad(code) =>
          error := Some(code);
          break;
        case Unwanted(len) =>
          buf.Retrieve(len);
        case Whole(len, payload) =>
          messages := messages + [payload];
          buf.Retrieve(len);
      }
    }
  }

  /** The outcome of a run that had already delivered `messages`. */
  function Resumed(messages: seq<seq<Byte>>, d: Decoded): Decoded {
    d.(messages := messages + d.messages)
  }
}
