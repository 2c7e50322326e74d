/** Positional numerals, and what it means to read one back. */
module Numerals {

  datatype Base = Decimal | Hexadecimal

  function Radix(base: Base): nat {
    if base.Decimal? then 10 else 16
  }

  function Upper(n: nat, base: Base): nat {
    if base.Decimal? then n / 10 else n / 16
  }

  function Lower(n: nat, base: Base): nat {
    if base.Decimal? then n % 10 else n % 16
  }

  function Shift(n: nat, base: Base): nat {
    if base.Decimal? then n * 10 else n * 16
  }

  const DIGITS_HEX := "0123456789ABCDEF"

  function Digit(d: nat): char
    requires d < 16
  {
    DIGITS_HEX[d]
  }

  function DigitValue(c: char): nat {
    if '0' <= c <= '9' then (c - '0') as nat else if 'A' <= c <= 'F' then (c - 'A') as nat + 10 else 16
  }

  /** The digits of `n`, most significant first. */
  function Magnitude(n: nat, base: Base): (s: string)
    ensures s != []
  {
    if n < Radix(base) then [Digit(n)] else Magnitude(Upper(n, base), base) + [Digit(Lower(n, base))]
  }

  function Numeral(v: int): string {
    if v < 0 then "-" + Magnitude(-v, Decimal) else Magnitude(v, Decimal)
  }

  /** The value a string of digits denotes. */
  function Value(s: string, base: Base): nat {
    if s == [] then 0 else Shift(Value(s[..|s| - 1], base), base) + DigitValue(s[|s| - 1])
  }

  function Parse(s: string): int {
    if s != [] && s[0] == '-' then 0 - Value(s[1..], Decimal) else Value(s, Decimal)
  }

  /** Digits of the base and no leading zero, except in zero itself. */
  predicate Canonical(s: string, base: Base) {
    s != [] && (forall k | 0 <= k < |s| :: DigitValue(s[k]) < Radix(base)) && (s[0] == '0' ==> |s| == 1)
  }

  predicate CanonicalSigned(s: string) {
    if s != [] && s[0] == '-' then Canonical(s[1..], Decimal) && s[1] != '0' else Canonical(s, Decimal)
  }

  lemma DigitBack(d: nat)
    requires d < 16
    ensures DigitValue(Digit(d)) == d && (Digit(d) == '0' <==> d == 0)
  {
  }

  lemma DigitOfValue(c: char)
    requires DigitValue(c) < 16
    ensures Digit(DigitValue(c)) == c
  {
  }

  lemma Compose(q: nat, d: nat, base: Base)
    requires d < Radix(base)
    ensures Upper(Shift(q, base) + d, base) == q && Lower(Shift(q, base) + d, base) == d
    ensures Shift(q, base) + d >= Radix(base) <==> q > 0
  {
  }

  lemma Decompose(n: nat, base: Base)
    ensures Shift(Upper(n, base), base) + Lower(n, base) == n && Lower(n, base) < Radix(base) <= 16
    ensures Upper(n, base) > 0 <==> n >= Radix(base)
  {
  }

  /** The digits of a number are canonical and denote it. */
  lemma {:induction false} MagnitudeValue(n: nat, base: Base)
    ensures Value(Magnitude(n, base), base) == n && Canonical(Magnitude(n, base), base)
    ensures Magnitude(n, base)[0] == '0' <==> n == 0
  {
    Decompose(n, base);
    DigitBack(Lower(n, base));
    if n < Radix(base) {
      OneDigit(n, base);
    } else {
      hide Digit, DigitValue, Upper, Lower, Shift, Radix, Value, Canonical;
      MagnitudeValue(Upper(n, base), base);
      AppendDigit(Magnitude(Upper(n, base), base), Digit(Lower(n, base)), base);
    }
  }

  lemma OneDigit(n: nat, base: Base)
    requires n < Radix(base)
    ensures Value(Magnitude(n, base), base) == n && Canonical(Magnitude(n, base), base)
    ensures Magnitude(n, base)[0] == '0' <==> n == 0
  {
    DigitBack(n);
    assert Magnitude(n, base)[..0] == [];
  }

  lemma AppendDigit(s: string, c: char, base: Base)
    requires Canonical(s, base) && s[0] != '0' && DigitValue(c) < Radix(base)
    ensures Value(s + [c], base) == Shift(Value(s, base), base) + DigitValue(c) && Canonical(s + [c], base)
  {
    assert (s + [c])[..|s|] == s;
  }

  /** A canonical string of digits is the one that its own value is written with. */
  lemma {:induction false} CanonicalMagnitude(s: string, base: Base)
    requires Canonical(s, base)
    ensures Magnitude(Value(s, base), base) == s
    ensures s[0] != '0' ==> Value(s, base) > 0
  {
    var d := s[|s| - 1];
    DigitOfValue(d);
    var front := s[..|s| - 1];
    assert s == front + [d];
    if |s| == 1 {
      DigitBack(DigitValue(d));
      assert front == [];
    } else {
      assert Canonical(front, base);
      hide Digit, DigitValue, Upper, Lower, Shift, Radix, Canonical;
      CanonicalMagnitude(front, base);
      Compose(Value(front, base), DigitValue(d), base);
    }
  }

  /** Reading a numeral back gives the number, and the numeral is in canonical form. */
  lemma NumeralParses(v: int)
    ensures Parse(Numeral(v)) == v && CanonicalSigned(Numeral(v))
  {
    var n := if v < 0 then -v else v;
    MagnitudeValue(n, Decimal);
    assert DigitValue(Magnitude(n, Decimal)[0]) < 10;
    if v < 0 {
      assert Numeral(v)[1..] == Magnitude(n, Decimal);
    }
  }

  /** Every canonical decimal string is the numeral of the number it denotes. */
  lemma CanonicalNumeral(s: string)
    requires CanonicalSigned(s)
    ensures Numeral(Parse(s)) == s
  {
    if s[0] == '-' {
      CanonicalMagnitude(s[1..], Decimal);
      assert s == "-" + s[1..];
    } else {
      CanonicalMagnitude(s, Decimal);
    }
  }

  function Pow(base: Base, e: nat): nat {
    if e == 0 then 1 else Shift(Pow(base, e - 1), base)
  }

  /** A number has at most `width` digits exactly when it is below that power of the base. */
  lemma {:induction false} MagnitudeLength(n: nat, base: Base, width: nat)
    requires 0 < width
    ensures |Magnitude(n, base)| <= width <==> n < Pow(base, width)
  {
    assert Pow(base, width) == Shift(Pow(base, width - 1), base);
    if width == 1 {
      assert Pow(base, 0) == 1;
    } else {
      MagnitudeLength(Upper(n, base), base, width - 1);
      if n < Radix(base) {
        PowPositive(base, width - 1);
      }
    }
  }

  lemma {:induction false} PowPositive(base: Base, e: nat)
    ensures Pow(base, e) >= 1
  {
    if e > 0 {
      PowPositive(base, e - 1);
    }
  }

  const TWO_63 := 0x8000_0000_0000_0000
  const TWO_64 := 0x1_0000_0000_0000_0000

  /** Every integer type of the source holds numbers in this range. */
  predicate Machine(v: int) {
    -TWO_63 <= v < TWO_64
  }

  lemma Powers()
    ensures Pow(Decimal, 19) == 10_000_000_000_000_000_000 && Pow(Decimal, 20) == 100_000_000_000_000_000_000
    ensures Pow(Hexadecimal, 16) == TWO_64
  {
    assert Pow(Decimal, 5) == 100_000;
    assert Pow(Decimal, 10) == 10_000_000_000;
    assert Pow(Decimal, 15) == 1_000_000_000_000_000;
    assert Pow(Hexadecimal, 4) == 0x1_0000;
    assert Pow(Hexadecimal, 8) == 0x1_0000_0000;
    assert Pow(Hexadecimal, 12) == 0x1_0000_0000_0000;
  }

  /** No machine integer takes more than 20 characters, and no address more than 16 digits. */
  lemma NumeralWidths(v: int)
    requires Machine(v)
    ensures |Numeral(v)| <= 20 && (v >= 0 ==> |Magnitude(v, Hexadecimal)| <= 16)
  {
    Powers();
    if v < 0 {
      MagnitudeLength(-v, Decimal, 19);
    } else {
      MagnitudeLength(v, Decimal, 20);
      MagnitudeLength(v, Hexadecimal, 16);
    }
  }
}

/** The conversions and buffers behind a log line (src/muduo/base/LogStream.cc, LogStream.h). */
module LogStream {
  import opened CppInt
  import opened Numerals

  // The decimal digits of -9 to 9; the digit of zero is the one at ZERO.
  const SIGNED_DIGITS := "9876543210123456789"
  const ZERO := 9

  function Abs(x: int): nat {
    if x < 0 then -x else x
  }

  function Reversed(s: string): string {
    seq(|s|, k requires 0 <= k < |s| => s[|s| - 1 - k])
  }

  lemma ReversedSnoc(s: string, c: char)
    ensures Reversed(s + [c]) == [c] + Reversed(s) && |Reversed(s)| == |s|
  {
  }

  lemma IsReversed(r: string, s: string)
    requires |r| == |s| && forall k | 0 <= k < |s| :: r[k] == s[|s| - 1 - k]
    ensures r == Reversed(s)
  {
  }

  /** Outside i..j the text in lo..hi is mirrored already; the rest is as it was. */
  ghost predicate Mirrored(text: string, was: string, lo: nat, hi: nat, i: int, j: int)
    requires lo <= hi <= |was| == |text|
  {
    forall k | 0 <= k < |text| :: text[k] == MirrorAt(was, lo, hi, i, j, k)
  }

  function MirrorAt(was: string, lo: nat, hi: nat, i: int, j: int, k: nat): char
    requires lo <= hi <= |was| && k < |was|
  {
    if lo <= k < hi && (k < i || j < k) then was[lo + hi - 1 - k] else was[k]
  }

  lemma MirrorPair(text: string, was: string, lo: nat, hi: nat, i: int, j: int)
    requires lo <= hi <= |was| == |text| && lo <= i < j < hi && i - lo == hi - 1 - j && Mirrored(text, was, lo, hi, i, j)
    ensures Mirrored(text[i := text[j]][j := text[i]], was, lo, hi, i + 1, j - 1)
  {
    var text' := text[i := text[j]][j := text[i]];
    forall k | 0 <= k < |text|
      ensures text'[k] == MirrorAt(was, lo, hi, i + 1, j - 1, k)
    {
      assert text[k] == MirrorAt(was, lo, hi, i, j, k);
    }
  }

  lemma MirrorDone(text: string, was: string, lo: nat, hi: nat, i: int, j: int)
    requires lo <= hi <= |was| == |text| && j <= i <= j + 2 && lo <= i && j < hi && i - lo == hi - 1 - j
    requires Mirrored(text, was, lo, hi, i, j)
    ensures text[lo..hi] == Reversed(was[lo..hi]) && text[..lo] == was[..lo] && text[hi..] == was[hi..]
  {
    assert forall k | 0 <= k < lo || hi <= k < |text| :: text[k] == MirrorAt(was, lo, hi, i, j, k);
    IsReversed(text[lo..hi], was[lo..hi]);
  }

  /** std::reverse on buf[lo..hi]. */
  method Reverse(buf: array<char>, lo: nat, hi: nat)
    requires lo <= hi <= buf.Length
    modifies buf
    ensures buf[lo..hi] == Reversed(old(buf[lo..hi]))
    ensures buf[..lo] == old(buf[..lo]) && buf[hi..] == old(buf[hi..])
  {
    ghost var was := buf[..];
    var i: int, j: int := lo, hi - 1;
    MirrorStart(was, lo, hi);
    hide Reversed, Mirrored;
    while i < j
      invariant lo <= i <= j + 2 && j < hi && i - lo == hi - 1 - j
      invariant Mirrored(buf[..], was, lo, hi, i, j)
    {
      MirrorPair(buf[..], was, lo, hi, i, j);
      ghost var text := buf[..];
      buf[i], buf[j] := buf[j], buf[i];
      assert buf[..] == text[i := text[j]][j := text[i]];
      i, j := i + 1, j - 1;
    }
    MirrorDone(buf[..], was, lo, hi, i, j);
    assert buf[..][lo..hi] == buf[lo..hi] && was[lo..hi] == old(buf[lo..hi]);
  }

  lemma MirrorStart(was: string, lo: nat, hi: nat)
    requires lo <= hi <= |was|
    ensures Mirrored(was, was, lo, hi, lo, hi - 1)
  {
  }

  /** Ends the text written low end first in buf[at..p], and turns it round. */
  method Finish(buf: array<char>, at: nat, p: nat)
    requires at <= p < buf.Length
    modifies buf
    ensures buf[..p] == old(buf[..at]) + Reversed(old(buf[at..p])) && buf[p] == '\0'
  {
    ghost var written := buf[at..p];
    buf[p] := '\0';
    assert buf[at..p] == written;
    Reverse(buf, at, p);
    hide Reversed;
    assert buf[..p] == buf[..at] + buf[at..p];
  }

  /** One digit off the low end, as the conversion loop takes it, whatever the sign. */
  lemma LowDigit(i: int)
    ensures -9 <= Rem(i, 10) <= 9 && SIGNED_DIGITS[ZERO + Rem(i, 10)] == Digit(Lower(Abs(i), Decimal))
    ensures Abs(Quot(i, 10)) == Upper(Abs(i), Decimal) && (Quot(i, 10) == 0 <==> Abs(i) < 10)
  {
  }

  /** The digits still to be written, then those written so far from the low end up. */
  ghost predicate Progress(more: bool, n: nat, base: Base, written: string, all: string) {
    (if more then Magnitude(n, base) else []) + Reversed(written) == all
  }

  lemma NothingWritten(all: string, written: string)
    requires written == []
    ensures all + Reversed(written) == all
  {
  }

  lemma EverythingWritten(written: string, all: string)
    requires [] + Reversed(written) == all
    ensures Reversed(written) == all && |written| == |all|
  {
  }

  lemma OneMoreDigit(n: nat, base: Base, written: string, all: string)
    requires Progress(true, n, base, written, all)
    ensures |written| < |all|
    ensures Progress(n >= Radix(base), Upper(n, base), base, written + [Digit(Lower(n, base))], all)
  {
    hide Magnitude, Reversed, Digit, Upper, Lower;
    Decompose(n, base);
    var c, rest := Digit(Lower(n, base)), if n < Radix(base) then [] else Magnitude(Upper(n, base), base);
    LastDigit(n, base);
    ReversedSnoc(written, c);
    assert rest + [c] + Reversed(written) == rest + ([c] + Reversed(written));
  }

  lemma LastDigit(n: nat, base: Base)
    ensures Magnitude(n, base) == (if n < Radix(base) then [] else Magnitude(Upper(n, base), base)) + [Digit(Lower(n, base))]
  {
  }

  method WriteSign(buf: array<char>, at: nat, p: nat) returns (q: nat)
    requires at <= p < buf.Length
    modifies buf
    ensures q == p + 1 && Reversed(buf[at..q]) == "-" + Reversed(old(buf[at..p])) && buf[..at] == old(buf[..at])
  {
    hide Reversed;
    ghost var digits := buf[..p];
    ReversedSnoc(digits[at..], '-');
    buf[p] := '-';
    q := p + 1;
    assert buf[..q] == digits + ['-'];
    assert buf[at..q] == digits[at..] + ['-'] && digits[at..] == old(buf[at..p]);
  }

  /** Writes the numeral of `value` at `at`, and a terminator after it. */
  method Convert(buf: array<char>, at: nat, value: int) returns (len: nat)
    requires at + |Numeral(value)| < buf.Length
    modifies buf
    ensures len == |Numeral(value)| && buf[..at + len] == old(buf[..at]) + Numeral(value)
    ensures buf[at + len] == '\0'
  {
    hide Reversed, Magnitude;
    var p := ConvertDigits(buf, at, value);
    if value < 0 {
      p := WriteSign(buf, at, p);
    }
    Finish(buf, at, p);
    len := p - at;
  }

  /** Writes the hexadecimal numeral of `value` at `at`, and a terminator after it. */
  method ConvertHex(buf: array<char>, at: nat, value: nat) returns (len: nat)
    requires at + |Magnitude(value, Hexadecimal)| < buf.Length
    modifies buf
    ensures len == |Magnitude(value, Hexadecimal)|
    ensures buf[..at + len] == old(buf[..at]) + Magnitude(value, Hexadecimal) && buf[at + len] == '\0'
  {
    ghost var all := Magnitude(value, Hexadecimal);
    var i, p, more := value, at, true;
    NothingWritten(all, buf[at..p]);
    hide Magnitude, Reversed;
    while more
      invariant at <= p <= buf.Length
      invariant Progress(more, i, Hexadecimal, buf[at..p], all)
      invariant buf[..at] == old(buf[..at])
      decreases if more then 1 + i else 0
    {
      OneMoreDigit(i, Hexadecimal, buf[at..p], all);
      ghost var before := buf[..p];
      var lsd := i % 16;
      i := i / 16;
      buf[p] := DIGITS_HEX[lsd];
      assert buf[..p] == before;
      p := p + 1;
      assert buf[at..p] == before[at..] + [buf[p - 1]];
      more := i != 0;
    }
    EverythingWritten(buf[at..p], all);
    Finish(buf, at, p);
    len := p - at;
  }

  method ConvertDigits(buf: array<char>, at: nat, value: int) returns (p: nat)
    requires at + |Magnitude(Abs(value), Decimal)| <= buf.Length
    modifies buf
    ensures p == at + |Magnitude(Abs(value), Decimal)| && Reversed(buf[at..p]) == Magnitude(Abs(value), Decimal)
    ensures buf[..at] == old(buf[..at])
  {
    ghost var all := Magnitude(Abs(value), Decimal);
    var i, more := value, true;
    p := at;
    NothingWritten(all, buf[at..p]);
    hide Magnitude, Reversed;
    while more
      invariant at <= p <= buf.Length
      invariant Progress(more, Abs(i), Decimal, buf[at..p], all)
      invariant buf[..at] == old(buf[..at])
      decreases if more then 1 + Abs(i) else 0
    {
      LowDigit(i);
      OneMoreDigit(Abs(i), Decimal, buf[at..p], all);
      ghost var before := buf[..p];
      var lsd := Rem(i, 10);
      i := Quot(i, 10);
      buf[p] := SIGNED_DIGITS[ZERO + lsd];
      assert buf[..p] == before;
      p := p + 1;
      assert buf[at..p] == before[at..] + [buf[p - 1]];
      more := i != 0;
    }
    EverythingWritten(buf[at..p], all);
  }

  const MAX_NUMERIC_SIZE := 32

  /** A buffer that takes a piece of text whole or not at all. */
  class FixedBuffer {
    const data: array<char>
    var cur: nat

    ghost predicate Valid()
      reads this
    {
      cur <= data.Length
    }

    ghost function Contents(): string
      requires Valid()
      reads this, data
    {
      data[..cur]
    }

    constructor (size: nat)
      ensures Valid() && fresh(data) && data.Length == size && Contents() == []
    {
      data := new char[size];
      cur := 0;
    }

    function Avail(): int
      reads this
    {
      data.Length - cur
    }

    method Append(buf: string)
      requires Valid()
      modifies this, data
      ensures Valid()
      ensures Contents() == old(Contents()) + if |buf| < old(Avail()) then buf else []
    {
      if Avail() > |buf| {
        forall k | 0 <= k < |buf| {
          data[cur + k] := buf[k];
        }
        cur := cur + |buf|;
      }
    }

    method Add(len: nat)
      requires Valid() && len <= Avail()
      modifies this`cur
      ensures Valid() && cur == old(cur) + len
    {
      cur := cur + len;
    }

    method Reset()
      modifies this`cur
      ensures Valid() && Contents() == []
    {
      cur := 0;
    }
  }

  /** What can be sent to a stream. */
  datatype Item = Text(text: string) | Integer(v: int) | Pointer(address: nat)

  predicate Representable(item: Item) {
    match item
    case Text(_) => true
    case Integer(v) => Machine(v)
    case Pointer(address) => address < TWO_64
  }

  function Render(item: Item): string {
    match item
    case Text(text) => text
    case Integer(v) => Numeral(v)
    case Pointer(address) => "0x" + Magnitude(address, Hexadecimal)
  }

  /** What a reader makes of a piece of output: the text, the number or the address that was sent. */
  predicate Denotes(s: string, item: Item) {
    match item
    case Text(text) => s == text
    case Integer(v) => CanonicalSigned(s) && Parse(s) == v
    case Pointer(address) =>
      |s| >= 2 && s[..2] == "0x" && Canonical(s[2..], Hexadecimal) && Value(s[2..], Hexadecimal) == address
  }

  /** Each item is written as the one string that denotes it. */
  lemma RenderDenotes(item: Item, s: string)
    ensures Denotes(s, item) <==> s == Render(item)
  {
    hide Numeral, Magnitude, Parse, Value, CanonicalSigned, Canonical;
    match item
    case Text(_) =>
    case Integer(v) =>
      NumeralParses(v);
      if Denotes(s, item) {
        CanonicalNumeral(s);
      }
    case Pointer(address) =>
      MagnitudeValue(address, Hexadecimal);
      var r := Render(item);
      assert r[..2] == "0x" && r[2..] == Magnitude(address, Hexadecimal);
      if Denotes(s, item) {
        CanonicalMagnitude(s[2..], Hexadecimal);
        assert s == s[..2] + s[2..];
      }
  }

  /** Text goes in when a byte would still be left over, a number when the widest one would go in. */
  predicate Fits(avail: int, item: Item) {
    if item.Text? then |item.text| < avail else MAX_NUMERIC_SIZE <= avail
  }

  function Sent(size: nat, out: string, item: Item): string {
    out + if Fits(size - |out|, item) then Render(item) else []
  }

  /** What a stream of `size` holds after the items, having held `out` before. */
  function Streamed(size: nat, out: string, items: seq<Item>): string {
    if items == [] then out else Sent(size, Streamed(size, out, items[..|items| - 1]), items[|items| - 1])
  }

  function RenderAll(items: seq<Item>): string {
    if items == [] then [] else RenderAll(items[..|items| - 1]) + Render(items[|items| - 1])
  }

  lemma RenderWidth(item: Item)
    requires Representable(item)
    ensures !item.Text? ==> |Render(item)| <= 20
  {
    if item.Integer? {
      NumeralWidths(item.v);
    } else if item.Pointer? {
      NumeralWidths(item.address);
    }
  }

  /** Whatever is sent, the cursor stays short of the end: there is always room for a terminator. */
  lemma {:induction false} NeverFull(size: nat, out: string, items: seq<Item>)
    requires |out| < size && forall k | 0 <= k < |items| :: Representable(items[k])
    ensures |Streamed(size, out, items)| < size
  {
    if items != [] {
      NeverFull(size, out, items[..|items| - 1]);
      RenderWidth(items[|items| - 1]);
    }
  }

  /** As long as a number of any width would still go in at the end, nothing is dropped and all is in order. */
  lemma {:induction false} NothingDropped(size: nat, out: string, items: seq<Item>)
    requires |out| + |RenderAll(items)| + MAX_NUMERIC_SIZE <= size
    ensures Streamed(size, out, items) == out + RenderAll(items)
  {
    hide Render, Fits, Sent;
    if items == [] {
      assert out + RenderAll(items) == out;
    } else {
      var init, item := items[..|items| - 1], items[|items| - 1];
      NothingDropped(size, out, init);
      SentWhole(size, out + RenderAll(init), item);
      assert out + (RenderAll(init) + Render(item)) == out + RenderAll(init) + Render(item);
    }
  }

  lemma SentWhole(size: nat, out: string, item: Item)
    requires |out| + |Render(item)| + MAX_NUMERIC_SIZE <= size
    ensures Sent(size, out, item) == out + Render(item)
  {
  }

  lemma PointerText(before: string, digits: string)
    ensures var all := before + ("0x" + digits);
            all == before + "0x" + digits && before + "0x" <= all && all[|before| + 2..] == digits
  {
  }

  class LogStream {
    const buffer: FixedBuffer

    constructor (size: nat)
      ensures fresh(buffer) && fresh(buffer.data) && buffer.data.Length == size
      ensures buffer.Valid() && buffer.Contents() == []
    {
      buffer := new FixedBuffer(size);
    }

    method FormatInteger(v: int)
      requires buffer.Valid() && Machine(v)
      modifies buffer, buffer.data
      ensures buffer.Valid()
      ensures buffer.Contents() == Sent(buffer.data.Length, old(buffer.Contents()), Integer(v))
      ensures old(buffer.Avail()) < 32 ==> buffer.Contents() == old(buffer.Contents())
      ensures old(buffer.Avail()) >= 32 ==>
                && old(buffer.Contents()) <= buffer.Contents()
                && var s := buffer.Contents()[|old(buffer.Contents())|..]; CanonicalSigned(s) && Parse(s) == v
    {
      hide CanonicalSigned, Parse, Numeral;
      if buffer.Avail() >= MAX_NUMERIC_SIZE {
        NumeralWidths(v);
        NumeralParses(v);
        ghost var before := buffer.Contents();
        var len := Convert(buffer.data, buffer.cur, v);
        buffer.Add(len);
        assert buffer.Contents() == before + Numeral(v);
        assert (before + Numeral(v))[|before|..] == Numeral(v);
      }
    }

    /** Writes "0x" and the digits at the cursor, without moving it. */
    method WritePointer(address: nat) returns (len: nat)
      requires buffer.Valid() && buffer.cur + 2 + |Magnitude(address, Hexadecimal)| < buffer.data.Length
      modifies buffer.data
      ensures len == 2 + |Magnitude(address, Hexadecimal)|
      ensures buffer.data[..buffer.cur + len] == old(buffer.Contents()) + ("0x" + Magnitude(address, Hexadecimal))
    {
      hide Magnitude;
      var buf, at := buffer.data, buffer.cur;
      ghost var before, digits := buf[..at], Magnitude(address, Hexadecimal);
      buf[at], buf[at + 1] := '0', 'x';
      assert buf[..at + 2] == before + "0x";
      len := ConvertHex(buf, at + 2, address);
      len := len + 2;
      PointerText(before, digits);
    }

    method FormatPointer(address: nat)
      requires buffer.Valid() && address < TWO_64
      modifies buffer, buffer.data
      ensures buffer.Valid()
      ensures buffer.Contents() == Sent(buffer.data.Length, old(buffer.Contents()), Pointer(address))
      ensures old(buffer.Avail()) < 32 ==> buffer.Contents() == old(buffer.Contents())
      ensures old(buffer.Avail()) >= 32 ==>
                && old(buffer.Contents()) + "0x" <= buffer.Contents()
                && var digits := buffer.Contents()[|old(buffer.Contents())| + 2..];
                   Canonical(digits, Hexadecimal) && Value(digits, Hexadecimal) == address
    {
      hide Magnitude, Canonical, Value;
      if buffer.Avail() >= MAX_NUMERIC_SIZE {
        NumeralWidths(address);
        MagnitudeValue(address, Hexadecimal);
        PointerText(buffer.Contents(), Magnitude(address, Hexadecimal));
        var len := WritePointer(address);
        buffer.Add(len);
      }
    }

    method AppendText(text: string)
      requires buffer.Valid()
      modifies buffer, buffer.data
      ensures buffer.Valid()
      ensures buffer.Contents() == Sent(buffer.data.Length, old(buffer.Contents()), Text(text))
      ensures buffer.Contents() == old(buffer.Contents()) + if |text| < old(buffer.Avail()) then text else []
    {
      buffer.Append(text);
    }

    /** A chain of insertions, one after another. */
    method Output(items: seq<Item>)
      requires buffer.Valid() && forall k | 0 <= k < |items| :: Representable(items[k])
      modifies buffer, buffer.data
      ensures buffer.Valid() && buffer.Contents() == Streamed(buffer.data.Length, old(buffer.Contents()), items)
    {
      hide Sent;
      for i := 0 to |items|
        invariant buffer.Valid()
        invariant buffer.Contents() == Streamed(buffer.data.Length, old(buffer.Contents()), items[..i])
      {
        assert Representable(items[i]);
        match items[i] {
          case Text(text) => AppendText(text);
          case Integer(v) => FormatInteger(v);
          case Pointer(address) => FormatPointer(address);
        }
        assert items[..i + 1][..i] == items[..i];
      }
      assert items[..|items|] == items;
    }
  }
}
