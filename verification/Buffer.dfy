/** Big-endian two's complement integers, as src/muduo/net/Endian.h puts them on the wire. */
module Endian {
  import opened Bytes

  function Pow256(width: nat): (p: nat)
    ensures p > 0
  {
    if width == 0 then 1 else 256 * Pow256(width - 1)
  }

  function EncodeUnsigned(n: nat, width: nat): (bytes: seq<Byte>)
    ensures |bytes| == width
  {
    if width == 0 then [] else EncodeUnsigned(n / 256, width - 1) + [n % 256]
  }

  function DecodeUnsigned(bytes: seq<Byte>): nat {
    if bytes == [] then 0
    else
      var high := DecodeUnsigned(bytes[..|bytes| - 1]);
      256 * high + bytes[|bytes| - 1]
  }

  /** The values of a signed integer of `width` bytes. */
  predicate Fits(x: int, width: nat) {
    -2 * x <= Pow256(width) && 2 * x < Pow256(width)
  }

  function EncodeInt(x: int, width: nat): (bytes: seq<Byte>)
    requires Fits(x, width)
    ensures |bytes| == width
  {
    EncodeUnsigned(Unsigned(x, width), width)
  }

  function DecodeInt(bytes: seq<Byte>): int {
    var n, p := DecodeUnsigned(bytes), Pow256(|bytes|);
    if 2 * n >= p then n - p else n
  }

  lemma {:induction false} UnsignedRoundTrip(n: nat, width: nat)
    requires n < Pow256(width)
    ensures DecodeUnsigned(EncodeUnsigned(n, width)) == n
  {
    if width > 0 {
      UnsignedRoundTrip(n / 256, width - 1);
      var bytes := EncodeUnsigned(n, width);
      assert bytes[..width - 1] == EncodeUnsigned(n / 256, width - 1);
    }
  }

  lemma {:induction false} DecodedFits(bytes: seq<Byte>)
    ensures DecodeUnsigned(bytes) < Pow256(|bytes|)
    ensures EncodeUnsigned(DecodeUnsigned(bytes), |bytes|) == bytes
  {
    if bytes != [] {
      var front := bytes[..|bytes| - 1];
      DecodedFits(front);
      var n := DecodeUnsigned(bytes);
      assert n / 256 == DecodeUnsigned(front) && n % 256 == bytes[|bytes| - 1];
      assert bytes == front + [bytes[|bytes| - 1]];
    }
  }

  /** Reading what was written gives the same integer, for every value of every width. */
  lemma IntRoundTrip(x: int, width: nat)
    requires Fits(x, width)
    ensures DecodeInt(EncodeInt(x, width)) == x
  {
    UnsignedRoundTrip(Unsigned(x, width), width);
  }

  /** Every byte string is the encoding of the integer it reads as. */
  lemma BytesRoundTrip(bytes: seq<Byte>)
    ensures Fits(DecodeInt(bytes), |bytes|) && EncodeInt(DecodeInt(bytes), |bytes|) == bytes
  {
    DecodedFits(bytes);
  }

  /** The unsigned number with the same bytes, two's complement for a negative one. */
  function Unsigned(x: int, width: nat): nat
    requires Fits(x, width)
  {
    if x < 0 then x + Pow256(width) else x
  }

  lemma DivideTwice(n: nat, p: nat)
    requires p > 0
    ensures n / 256 / p == n / (256 * p)
  {
    var a, b, r := n / 256 / p, n / 256 % p, n % 256;
    assert n == (256 * p) * a + (256 * b + r);
    Quotient(n, 256 * p, a, 256 * b + r);
  }

  lemma {:induction false} AtLeastOnce(d: nat, m: nat)
    requires m >= 1
    ensures d * m >= d
  {
    if m > 1 {
      AtLeastOnce(d, m - 1);
      assert d * m == d * (m - 1) + d;
    }
  }

  lemma Quotient(n: nat, d: nat, a: nat, b: nat)
    requires n == d * a + b && b < d
    ensures n / d == a
  {
    var q, r := n / d, n % d;
    Euclid(n, d);
    if q < a {
      Apart(d, q, a);
    } else if q > a {
      Apart(d, a, q);
    }
  }

  lemma Euclid(n: nat, d: nat)
    requires d > 0
    ensures n == d * (n / d) + n % d
  {
  }

  lemma Apart(d: nat, a: nat, b: nat)
    requires a < b
    ensures d * b >= d * a + d
  {
    AtLeastOnce(d, b - a);
    assert d * b == d * a + d * (b - a);
  }

  /** The digit of `n` to base 256 at place `k` of `width`, most significant first. */
  function Octet(n: nat, width: nat, k: nat): Byte
    requires k < width
  {
    n / Pow256(width - 1 - k) % 256
  }

  lemma {:induction false} UnsignedDigits(n: nat, width: nat, k: nat)
    requires k < width
    ensures EncodeUnsigned(n, width)[k] == Octet(n, width, k)
  {
    if k < width - 1 {
      UnsignedDigits(n / 256, width - 1, k);
      DivideTwice(n, Pow256(width - 2 - k));
    }
  }

  /** The bytes of an integer are its digits to base 256, most significant first. */
  lemma BigEndian(x: int, width: nat, k: nat)
    requires Fits(x, width) && k < width
    ensures EncodeInt(x, width)[k] == Octet(Unsigned(x, width), width, k)
  {
    UnsignedDigits(Unsigned(x, width), width, k);
  }

  /** And so they are read: the integer that bytes stand for has them as its digits. */
  lemma ReadBigEndian(bytes: seq<Byte>, k: nat)
    requires k < |bytes|
    ensures Fits(DecodeInt(bytes), |bytes|)
    ensures bytes[k] == Octet(Unsigned(DecodeInt(bytes), |bytes|), |bytes|, k)
  {
    BytesRoundTrip(bytes);
    hide DecodeInt, EncodeInt, Fits, Octet;
    BigEndian(DecodeInt(bytes), |bytes|, k);
  }

  datatype Sized = Sized(value: int, width: nat)

  ghost predicate AllFit(ints: seq<Sized>) {
    forall i | 0 <= i < |ints| :: Fits(ints[i].value, ints[i].width)
  }

  function EncodeAll(ints: seq<Sized>): seq<Byte>
    requires forall i | 0 <= i < |ints| :: Fits(ints[i].value, ints[i].width)
  {
    if ints == [] then [] else EncodeInt(ints[0].value, ints[0].width) + EncodeAll(ints[1..])
  }

  /** Successive reads of the given widths. */
  function ReadAll(bytes: seq<Byte>, widths: seq<nat>): seq<int> {
    if widths == [] || widths[0] > |bytes| then []
    else [DecodeInt(bytes[..widths[0]])] + ReadAll(bytes[widths[0]..], widths[1..])
  }

  function Widths(ints: seq<Sized>): seq<nat> {
    if ints == [] then [] else [ints[0].width] + Widths(ints[1..])
  }

  function Values(ints: seq<Sized>): seq<int> {
    if ints == [] then [] else [ints[0].value] + Values(ints[1..])
  }

  /** Integers of mixed widths appended in a row read back in that order, whatever follows. */
  lemma {:induction false} MixedWidthsReadBack(ints: seq<Sized>, rest: seq<Byte>)
    requires AllFit(ints)
    ensures ReadAll(EncodeAll(ints) + rest, Widths(ints)) == Values(ints)
  {
    hide DecodeInt, EncodeInt, Fits;
    if ints != [] {
      var first, w, more := EncodeInt(ints[0].value, ints[0].width), ints[0].width, EncodeAll(ints[1..]) + rest;
      MixedWidthsReadBack(ints[1..], rest);
      IntRoundTrip(ints[0].value, w);
      assert EncodeAll(ints) + rest == first + more;
      assert (first + more)[..w] == first && (first + more)[w..] == more;
      assert Widths(ints)[1..] == Widths(ints[1..]);
    }
  }
}

/** The growing, compacting network buffer (src/muduo/net/Buffer.h, Buffer.cc). */
module NetBuffer {
  import opened Bytes
  import opened Endian

  const CHEAP_PREPEND := 8
  const INITIAL_SIZE := 1024
  const EXTRA_SIZE := 65536

  datatype ReadResult = Failed | Received(bytes: seq<Byte>)

  datatype Op =
    | Appending(data: seq<Byte>)
    | Prepending(data: seq<Byte>)
    | Retrieving(len: nat)
    | Unwriting(len: nat)
    | Shrinking(reserve: nat)
    | Reading(result: ReadResult)

  /** The operations on a plain byte sequence. */
  function Apply(bytes: seq<Byte>, op: Op): seq<Byte> {
    match op
    case Appending(data) => bytes + data
    case Prepending(data) => data + bytes
    case Retrieving(len) => if len <= |bytes| then bytes[len..] else []
    case Unwriting(len) => if len <= |bytes| then bytes[..|bytes| - len] else []
    case Shrinking(_) => bytes
    case Reading(result) => if result.Received? then bytes + result.bytes else bytes
  }

  function ApplyAll(bytes: seq<Byte>, ops: seq<Op>): seq<Byte> {
    if ops == [] then bytes else Apply(ApplyAll(bytes, ops[..|ops| - 1]), ops[|ops| - 1])
  }

  class Buffer {
    var buffer: array<Byte>
    var readerIndex: nat
    var writerIndex: nat

    ghost predicate Valid()
      reads this
    {
      CHEAP_PREPEND <= buffer.Length && readerIndex <= writerIndex <= buffer.Length
    }

    /** The readable bytes: what the buffer holds. */
    ghost function Contents(): seq<Byte>
      requires Valid()
      reads this, buffer
    {
      buffer[readerIndex..writerIndex]
    }

    constructor (initialSize: nat)
      ensures Valid() && fresh(buffer) && Contents() == []
      ensures readerIndex == CHEAP_PREPEND && buffer.Length == CHEAP_PREPEND + initialSize
    {
      buffer := new Byte[CHEAP_PREPEND + initialSize](_ => 0);
      readerIndex := CHEAP_PREPEND;
      writerIndex := CHEAP_PREPEND;
    }

    function ReadableBytes(): nat
      requires Valid()
      reads this
    {
      writerIndex - readerIndex
    }

    function WritableBytes(): nat
      requires Valid()
      reads this
    {
      buffer.Length - writerIndex
    }

    function PrependableBytes(): nat
      reads this
    {
      readerIndex
    }

    method RetrieveAll()
      requires Valid()
      modifies this`readerIndex, this`writerIndex
      ensures Valid() && Contents() == [] && readerIndex == CHEAP_PREPEND
    {
      readerIndex := CHEAP_PREPEND;
      writerIndex := CHEAP_PREPEND;
    }

    method Retrieve(len: nat)
      requires Valid() && len <= ReadableBytes()
      modifies this`readerIndex, this`writerIndex
      ensures Valid() && Contents() == old(Contents())[len..]
    {
      if len < ReadableBytes() {
        readerIndex := readerIndex + len;
      } else {
        RetrieveAll();
      }
    }

    /** The first `len` readable bytes. */
    method Peek(len: nat) returns (bytes: seq<Byte>)
      requires Valid() && len <= ReadableBytes()
      ensures bytes == Contents()[..len]
    {
      bytes := buffer[readerIndex..readerIndex + len];
    }

    method RetrieveAsString(len: nat) returns (result: seq<Byte>)
      requires Valid() && len <= ReadableBytes()
      modifies this`readerIndex, this`writerIndex
      ensures Valid() && result == old(Contents())[..len] && Contents() == old(Contents())[len..]
    {
      result := Peek(len);
      Retrieve(len);
    }

    /** vector::resize to a larger size. */
    method Grow(size: nat)
      requires Valid() && size >= buffer.Length
      modifies this`buffer
      ensures Valid() && fresh(buffer) && buffer.Length == size && Contents() == old(Contents())
    {
      var larger := new Byte[size](_ => 0);
      for i := 0 to buffer.Length
        invariant buffer == old(buffer) && buffer[..] == old(buffer[..])
        invariant forall k | 0 <= k < i :: larger[k] == buffer[k]
      {
        larger[i] := buffer[i];
      }
      buffer := larger;
    }

    /** Moves the readable bytes down to the front; source and target may overlap. */
    method MoveToFront()
      requires Valid() && CHEAP_PREPEND < readerIndex
      modifies this`readerIndex, this`writerIndex, buffer
      ensures Valid() && buffer == old(buffer) && readerIndex == CHEAP_PREPEND
      ensures Contents() == old(Contents())
    {
      var readable := ReadableBytes();
      ghost var was := Contents();
      for i := 0 to readable
        invariant readerIndex == old(readerIndex) && writerIndex == old(writerIndex)
        invariant buffer[CHEAP_PREPEND..CHEAP_PREPEND + i] == was[..i]
        invariant buffer[readerIndex + i..writerIndex] == was[i..]
      {
        assert buffer[readerIndex + i] == buffer[readerIndex + i..writerIndex][0];
        buffer[CHEAP_PREPEND + i] := buffer[readerIndex + i];
      }
      readerIndex := CHEAP_PREPEND;
      writerIndex := readerIndex + readable;
    }

    method MakeSpace(len: nat)
      requires Valid() && WritableBytes() < len
      modifies this, buffer
      ensures Valid() && Contents() == old(Contents()) && WritableBytes() >= len
      ensures buffer == old(buffer) || fresh(buffer)
      ensures old(WritableBytes() + PrependableBytes()) < len + CHEAP_PREPEND <==> buffer.Length != old(buffer.Length)
      ensures readerIndex == if buffer.Length == old(buffer.Length) then CHEAP_PREPEND else old(readerIndex)
    {
      if WritableBytes() + PrependableBytes() < len + CHEAP_PREPEND {
        Grow(writerIndex + len);
      } else {
        assert CHEAP_PREPEND < readerIndex;
        MoveToFront();
      }
    }

    method EnsureWritableBytes(len: nat)
      requires Valid()
      modifies this, buffer
      ensures Valid() && Contents() == old(Contents()) && WritableBytes() >= len
      ensures buffer == old(buffer) || fresh(buffer)
      ensures readerIndex == old(readerIndex) || readerIndex == CHEAP_PREPEND
      ensures old(WritableBytes()) >= len ==> buffer == old(buffer) && writerIndex == old(writerIndex)
      ensures buffer.Length >= old(buffer.Length)
    {
      if WritableBytes() < len {
        MakeSpace(len);
      }
    }

    /** Copies bytes to the writable area without making them readable. */
    method Fill(data: seq<Byte>)
      requires Valid() && |data| <= WritableBytes()
      modifies buffer
      ensures Valid() && Contents() == old(Contents())
      ensures buffer[writerIndex..writerIndex + |data|] == data
    {
      for i := 0 to |data|
        invariant buffer[writerIndex..writerIndex + i] == data[..i]
        invariant Contents() == old(Contents())
      {
        buffer[writerIndex + i] := data[i];
      }
    }

    /** Makes bytes already in the writable area readable. */
    method HasWritten(len: nat)
      requires Valid() && len <= WritableBytes()
      modifies this`writerIndex
      ensures Valid() && Contents() == old(Contents()) + old(buffer[writerIndex..writerIndex + len])
    {
      writerIndex := writerIndex + len;
    }

    /** Writes to the writable area and makes what was written readable. */
    method AppendInPlace(data: seq<Byte>)
      requires Valid() && |data| <= WritableBytes()
      modifies this`writerIndex, buffer
      ensures Valid() && Contents() == old(Contents()) + data
      ensures writerIndex == old(writerIndex) + |data|
    {
      Fill(data);
      HasWritten(|data|);
    }

    method Append(data: seq<Byte>)
      requires Valid()
      modifies this, buffer
      ensures Valid() && Contents() == old(Contents()) + data
      ensures buffer == old(buffer) || fresh(buffer)
      ensures readerIndex == old(readerIndex) || readerIndex == CHEAP_PREPEND
      ensures old(WritableBytes()) >= |data| ==>
                buffer == old(buffer) && WritableBytes() == old(WritableBytes()) - |data|
    {
      EnsureWritableBytes(|data|);
      AppendInPlace(data);
    }

    method Unwrite(len: nat)
      requires Valid() && len <= ReadableBytes()
      modifies this`writerIndex
      ensures Valid() && Contents() == old(Contents())[..old(ReadableBytes()) - len]
    {
      assert buffer[readerIndex..writerIndex - len] == Contents()[..ReadableBytes() - len];
      writerIndex := writerIndex - len;
    }

    method Prepend(data: seq<Byte>)
      requires Valid() && |data| <= PrependableBytes()
      modifies this`readerIndex, buffer
      ensures Valid() && Contents() == data + old(Contents()) && buffer == old(buffer)
    {
      readerIndex := readerIndex - |data|;
      for i := 0 to |data|
        invariant readerIndex == old(readerIndex) - |data|
        invariant buffer[readerIndex..readerIndex + i] == data[..i]
        invariant buffer[old(readerIndex)..writerIndex] == old(Contents())
      {
        buffer[readerIndex + i] := data[i];
      }
      ghost var middle := old(readerIndex);
      assert buffer[readerIndex..writerIndex] == buffer[readerIndex..middle] + buffer[middle..writerIndex];
      assert data[..|data|] == data;
    }

    /** Leaves a fresh allocation with room for `reserve` more bytes. */
    method Shrink(reserve: nat)
      requires Valid()
      modifies this
      ensures Valid() && fresh(buffer) && Contents() == old(Contents())
      ensures readerIndex == CHEAP_PREPEND && WritableBytes() >= reserve
    {
      var other := new Buffer(INITIAL_SIZE);
      other.EnsureWritableBytes(ReadableBytes() + reserve);
      other.Append(buffer[readerIndex..writerIndex]);
      buffer, readerIndex, writerIndex := other.buffer, other.readerIndex, other.writerIndex;
    }

    /** How many bytes the scatter read offers: the writable area, and 64 KiB more when that is smaller. */
    function ReadLimit(): nat
      requires Valid()
      reads this
    {
      if WritableBytes() < EXTRA_SIZE then WritableBytes() + EXTRA_SIZE else WritableBytes()
    }

    method ReadFd(result: ReadResult) returns (n: int)
      requires Valid() && (result.Received? ==> |result.bytes| <= ReadLimit())
      modifies this, buffer
      ensures Valid() && (buffer == old(buffer) || fresh(buffer))
      ensures result.Failed? ==> n == -1 && Contents() == old(Contents())
      ensures result.Received? ==> n == |result.bytes| && Contents() == old(Contents()) + result.bytes
    {
      var writable := WritableBytes();
      if result.Failed? {
        return -1;
      }
      n := |result.bytes|;
      if n <= writable {
        AppendInPlace(result.bytes);
      } else {
        var direct, extrabuf := result.bytes[..writable], result.bytes[writable..];
        AppendInPlace(direct);
        ghost var before := old(Contents());
        Append(extrabuf);
        assert before + direct + extrabuf == before + (direct + extrabuf) && direct + extrabuf == result.bytes;
      }
    }

    /** appendInt8 to appendInt64. */
    method AppendInt(x: int, width: nat)
      requires Valid() && Fits(x, width)
      modifies this, buffer
      ensures Valid() && Contents() == old(Contents()) + EncodeInt(x, width)
      ensures forall k | 0 <= k < width ::
                Contents()[old(ReadableBytes()) + k] == Octet(Unsigned(x, width), width, k)
      ensures buffer == old(buffer) || fresh(buffer)
      ensures readerIndex == old(readerIndex) || readerIndex == CHEAP_PREPEND
    {
      hide EncodeInt, Unsigned, Octet, Fits;
      ghost var before := Contents();
      Append(EncodeInt(x, width));
      forall k | 0 <= k < width
        ensures Contents()[|before| + k] == Octet(Unsigned(x, width), width, k)
      {
        BigEndian(x, width, k);
        assert (before + EncodeInt(x, width))[|before| + k] == EncodeInt(x, width)[k];
      }
    }

    /** peekInt8 to peekInt64. */
    method PeekInt(width: nat) returns (x: int)
      requires Valid() && width <= ReadableBytes()
      ensures Fits(x, width) && EncodeInt(x, width) == Contents()[..width]
    {
      hide DecodeInt, EncodeInt, Fits;
      var bytes := Peek(width);
      x := DecodeInt(bytes);
      BytesRoundTrip(bytes);
    }

    /** readInt8 to readInt64. */
    method ReadInt(width: nat) returns (x: int)
      requires Valid() && width <= ReadableBytes()
      modifies this`readerIndex, this`writerIndex
      ensures Valid() && Fits(x, width)
      ensures old(Contents()) == EncodeInt(x, width) + Contents()
    {
      x := PeekInt(width);
      Retrieve(width);
    }

    /** prependInt8 to prependInt64. */
    method PrependInt(x: int, width: nat)
      requires Valid() && Fits(x, width) && width <= PrependableBytes()
      modifies this`readerIndex, buffer
      ensures Valid() && Contents() == EncodeInt(x, width) + old(Contents()) && buffer == old(buffer)
    {
      Prepend(EncodeInt(x, width));
    }

    /** What the operation asserts of its arguments, and what readv(2) may report. */
    predicate Allowed(op: Op)
      requires Valid()
      reads this
    {
      match op
      case Appending(_) => true
      case Prepending(data) => |data| <= PrependableBytes()
      case Retrieving(len) => len <= ReadableBytes()
      case Unwriting(len) => len <= ReadableBytes()
      case Shrinking(_) => true
      case Reading(result) => result.Received? ==> |result.bytes| <= ReadLimit()
    }

    method Perform(op: Op)
      requires Valid() && Allowed(op)
      modifies this, buffer
      ensures Valid() && Contents() == Apply(old(Contents()), op)
      ensures buffer == old(buffer) || fresh(buffer)
    {
      match op {
        case Appending(data) => Append(data);
        case Prepending(data) => Prepend(data);
        case Retrieving(len) => Retrieve(len);
        case Unwriting(len) => Unwrite(len);
        case Shrinking(reserve) => Shrink(reserve);
        case Reading(result) => var _ := ReadFd(result);
      }
    }

    /** Any sequence of operations acts as on the plain sequence, up to the first one that is not allowed. */
    method Run(ops: seq<Op>) returns (done: nat)
      requires Valid()
      modifies this, buffer
      ensures Valid() && done <= |ops| && Contents() == ApplyAll(old(Contents()), ops[..done])
      ensures done < |ops| ==> !Allowed(ops[done])
    {
      hide Apply;
      done := 0;
      while done < |ops| && Allowed(ops[done])
        invariant Valid() && (buffer == old(buffer) || fresh(buffer))
        invariant done <= |ops| && Contents() == ApplyAll(old(Contents()), ops[..done])
      {
        Perform(ops[done]);
        assert ops[..done + 1][..done] == ops[..done];
        done := done + 1;
      }
    }
  }
}
