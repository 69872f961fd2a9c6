/** Bounds-checked reading of a byte string, and the variable-length integers of
    the 7z header with the writer they invert. */
module Bounded {
  import opened Support
  import opened Numbers
  import opened Sequences

  // ----- Little-endian numbers.

  function Pow256(n: nat): (p: nat)
    ensures p >= 1
  {
    if n == 0 then 1 else 0x100 * Pow256(n - 1)
  }

  /** The little-endian number in bytes[p..p + n]. */
  function LittleEndian(bytes: Bytes, p: nat, n: nat): (v: nat)
    requires p + n <= |bytes|
    ensures v < Pow256(n)
  {
    if n == 0 then 0
    else
      TopDigit(bytes[p + n - 1], Pow256(n - 1));
      LittleEndian(bytes, p, n - 1) + bytes[p + n - 1] * Pow256(n - 1)
  }

  lemma TopDigit(b: u8, w: nat)
    ensures 0 <= b * w <= 0xff * w
  {
  }

  /** The n low bytes of v, lowest first. */
  function LowBytes(v: nat, n: nat): (bytes: Bytes)
    ensures |bytes| == n
  {
    if n == 0 then [] else LowBytes(v, n - 1) + [(v / Pow256(n - 1)) % 0x100]
  }

  lemma Regroup(q: nat, r: nat, w: nat)
    ensures (0x100 * q + r) * w == q * (0x100 * w) + r * w
  {
  }

  lemma SplitAt(v: nat, w: nat)
    requires w > 0
    ensures v % w + ((v / w) % 0x100) * w == v % (0x100 * w)
  {
    var q, r := v / w, v % w;
    Regroup(q / 0x100, q % 0x100, w);
    TopDigit(q % 0x100, w);
    RemainderIs(v, 0x100 * w, q / 0x100, (q % 0x100) * w + r);
  }

  lemma {:induction false} LittleEndianOfLowBytes(bytes: Bytes, p: nat, v: nat, n: nat)
    requires At(bytes, p, LowBytes(v, n))
    ensures LittleEndian(bytes, p, n) == v % Pow256(n)
    decreases n
  {
    if n > 0 {
      var top := (v / Pow256(n - 1)) % 0x100;
      AtConcat(bytes, p, LowBytes(v, n - 1), [top]);
      AtOne(bytes, p + n - 1, top);
      LittleEndianOfLowBytes(bytes, p, v, n - 1);
      SplitAt(v, Pow256(n - 1));
    }
  }

  lemma Carry(low: nat, b: u8, w: nat)
    ensures 0x100 * low + b * (0x100 * w) == 0x100 * (low + b * w)
  {
    assert b * (0x100 * w) == 0x100 * (b * w);
  }

  /** The first byte counts once, what follows 256 times. */
  lemma {:induction false} LowFirst(bytes: Bytes, p: nat, n: nat)
    requires 0 < n && p + n <= |bytes|
    ensures LittleEndian(bytes, p, n) == bytes[p] + 0x100 * LittleEndian(bytes, p + 1, n - 1)
    decreases n
  {
    if n == 1 {
      assert LittleEndian(bytes, p, 0) == 0 && Pow256(0) == 1;
    } else {
      LowFirst(bytes, p, n - 1);
      Carry(LittleEndian(bytes, p + 1, n - 2), bytes[p + n - 1], Pow256(n - 2));
    }
  }

  // ----- Variable-length integers.

  /** What the mask is after `extra` shifts: the bit that is tested. */
  function Mask(extra: nat): (m: nat)
    requires extra < 8
    ensures m >= 1
  {
    match extra
    case 0 => 0x80
    case 1 => 0x40
    case 2 => 0x20
    case 3 => 0x10
    case 4 => 0x08
    case 5 => 0x04
    case 6 => 0x02
    case _ => 0x01
  }

  /** A first byte announcing `extra` further bytes: that many one bits, then a zero. */
  function Prefix(extra: nat): u8
    requires extra <= 8
  {
    if extra == 8 then 0xff else 0x100 - 2 * Mask(extra)
  }

  /** The one bits a first byte begins with. */
  function ExtraBytes(first: u8): (extra: nat)
    ensures extra <= 8 && first >= Prefix(extra)
    ensures extra < 8 ==> first - Prefix(extra) < Mask(extra)
  {
    if first < 0x80 then 0
    else if first < 0xc0 then 1
    else if first < 0xe0 then 2
    else if first < 0xf0 then 3
    else if first < 0xf8 then 4
    else if first < 0xfc then 5
    else if first < 0xfe then 6
    else if first < 0xff then 7
    else 8
  }

  datatype Parsed<+T> = Parsed(value: T, end: nat)

  /** The bits of the first byte that belong to the value. */
  function HighPart(first: u8): nat {
    var extra := ExtraBytes(first);
    if extra == 8 then 0 else first - Prefix(extra)
  }

  function UintAt(bytes: Bytes, p: nat): (r: Result<Parsed<u64>>)
    ensures r.Success? ==> p < r.value.end <= |bytes|
    ensures r.Failure? ==> r.error == Format(TruncatedRange)
  {
    if p >= |bytes| then Failure(Format(TruncatedRange))
    else
      var extra := ExtraBytes(bytes[p]);
      if p + 1 + extra > |bytes| then Failure(Format(TruncatedRange))
      else
        UintFits(bytes[p], LittleEndian(bytes, p + 1, extra));
        Success(Parsed(LittleEndian(bytes, p + 1, extra) + HighPart(bytes[p]) * Pow256(extra), p + 1 + extra))
  }

  /** What the first byte says: how many bytes follow, and what it adds above them. */
  lemma UintMeaning(bytes: Bytes, p: nat)
    requires UintAt(bytes, p).Success?
    ensures
      var b: int, v, end := bytes[p], UintAt(bytes, p).value.value, UintAt(bytes, p).value.end;
      && (b < 0x80 ==> end == p + 1 && v == b)
      && (0x80 <= b < 0xc0 ==> end == p + 2 && v == LittleEndian(bytes, p + 1, 1) + (b - 0x80) * 0x100)
      && (0xc0 <= b < 0xe0 ==> end == p + 3 && v == LittleEndian(bytes, p + 1, 2) + (b - 0xc0) * 0x1_0000)
      && (0xe0 <= b < 0xf0 ==> end == p + 4 && v == LittleEndian(bytes, p + 1, 3) + (b - 0xe0) * 0x100_0000)
      && (0xf0 <= b < 0xf8 ==> end == p + 5 && v == LittleEndian(bytes, p + 1, 4) + (b - 0xf0) * 0x1_0000_0000)
      && (0xf8 <= b < 0xfc ==> end == p + 6 && v == LittleEndian(bytes, p + 1, 5) + (b - 0xf8) * 0x100_0000_0000)
      && (0xfc <= b < 0xfe ==> end == p + 7 && v == LittleEndian(bytes, p + 1, 6) + (b - 0xfc) * 0x1_0000_0000_0000)
      && (b == 0xfe ==> end == p + 8 && v == LittleEndian(bytes, p + 1, 7))
      && (b == 0xff ==> end == p + 9 && v == LittleEndian(bytes, p + 1, 8))
  {
    hide LittleEndian, Pow256;
    Powers();
    if bytes[p] < 0x80 {
      NoLowBytes(bytes, p + 1);
    }
  }

  lemma Powers()
    ensures Pow256(0) == 1 && Pow256(1) == 0x100 && Pow256(2) == 0x1_0000 && Pow256(3) == 0x100_0000
    ensures Pow256(4) == 0x1_0000_0000 && Pow256(5) == 0x100_0000_0000 && Pow256(6) == 0x1_0000_0000_0000
    ensures Pow256(7) == 0x100_0000_0000_0000 && Pow256(8) == U64_MAX + 1
  {
    assert Pow256(2) == 0x100 * Pow256(1);
    assert Pow256(4) == 0x100 * Pow256(3);
    assert Pow256(6) == 0x100 * Pow256(5);
    assert Pow256(8) == 0x100 * Pow256(7);
  }

  /** Values below this fit in `extra` bytes after the first. */
  function Threshold(extra: nat): nat
    requires extra < 8
  {
    Mask(extra) * Pow256(extra)
  }

  lemma Thresholds()
    ensures Threshold(0) == 0x80 && Threshold(1) == 0x4000 && Threshold(2) == 0x20_0000 && Threshold(3) == 0x1000_0000
    ensures Threshold(4) == 0x8_0000_0000 && Threshold(5) == 0x400_0000_0000 && Threshold(6) == 0x2_0000_0000_0000
    ensures Threshold(7) == 0x100_0000_0000_0000
  {
    Powers();
  }

  lemma ScaledBelow(high: nat, low: nat, mask: nat, w: nat)
    requires high < mask && low < w
    ensures high * w + low < mask * w
  {
    assert (high + 1) * w <= mask * w;
  }

  lemma UintFits(first: u8, low: nat)
    requires low < Pow256(ExtraBytes(first))
    ensures low + HighPart(first) * Pow256(ExtraBytes(first)) <= U64_MAX
    ensures ExtraBytes(first) < 8 ==> low + HighPart(first) * Pow256(ExtraBytes(first)) < Threshold(ExtraBytes(first))
  {
    hide Pow256;
    var extra := ExtraBytes(first);
    Powers();
    if extra < 8 {
      ScaledBelow(HighPart(first), low, Mask(extra), Pow256(extra));
      hide ExtraBytes, HighPart;
      Thresholds();
    }
  }

  // ----- The writer.

  /** How many bytes the writer puts after the first. */
  function WrittenExtra(v: u64): (extra: nat)
    ensures extra <= 8
    ensures extra < 8 ==> v < Threshold(extra)
    ensures forall fewer: nat :: fewer < extra ==> v >= Threshold(fewer)
  {
    Thresholds();
    if v < 0x80 then 0
    else if v < 0x4000 then 1
    else if v < 0x20_0000 then 2
    else if v < 0x1000_0000 then 3
    else if v < 0x8_0000_0000 then 4
    else if v < 0x400_0000_0000 then 5
    else if v < 0x2_0000_0000_0000 then 6
    else if v < 0x100_0000_0000_0000 then 7
    else 8
  }

  function HighByte(v: u64, extra: nat): u8
    requires extra <= 8 && (extra < 8 ==> v < Threshold(extra))
  {
    if extra == 8 then 0xff
    else
      QuotientBelow(v, Mask(extra), Pow256(extra));
      Prefix(extra) + v / Pow256(extra)
  }

  lemma QuotientBelow(v: nat, mask: nat, w: nat)
    requires w > 0 && v < mask * w
    ensures v / w < mask
  {
    Times(v / w - mask, w);
    assert (v / w - mask) * w == (v / w) * w - mask * w;
  }

  function EncodeUint(v: u64): (bytes: Bytes)
    ensures |bytes| == 1 + WrittenExtra(v)
  {
    [HighByte(v, WrittenExtra(v))] + LowBytes(v, WrittenExtra(v))
  }

  lemma HighByteExtra(v: u64, extra: nat)
    requires extra <= 8 && (extra < 8 ==> v < Threshold(extra))
    ensures ExtraBytes(HighByte(v, extra)) == extra
    ensures HighPart(HighByte(v, extra)) == if extra == 8 then 0 else v / Pow256(extra)
  {
    hide Pow256, Threshold;
    if extra < 8 {
      assert v < Threshold(extra);
      BelowThreshold(v, extra);
      FirstByteExtra(v / Pow256(extra), extra);
    }
  }

  lemma BelowThreshold(v: u64, extra: nat)
    requires extra < 8 && v < Threshold(extra)
    ensures v / Pow256(extra) < Mask(extra)
  {
    QuotientBelow(v, Mask(extra), Pow256(extra));
  }

  lemma FirstByteExtra(high: nat, extra: nat)
    requires extra < 8 && high < Mask(extra)
    ensures Prefix(extra) + high < 0x100 && ExtraBytes(Prefix(extra) + high) == extra
    ensures HighPart(Prefix(extra) + high) == high
  {
  }

  /** Reading inverts writing, wherever the integer stands. */
  lemma UintRoundTrip(bytes: Bytes, p: nat, v: u64)
    requires At(bytes, p, EncodeUint(v))
    ensures UintAt(bytes, p) == Success(Parsed(v, p + |EncodeUint(v)|))
  {
    hide ExtraBytes, HighPart, Pow256, Threshold, LowBytes, WrittenExtra;
    var extra := WrittenExtra(v);
    AtBounds(bytes, p, EncodeUint(v));
    AtConcat(bytes, p, [HighByte(v, extra)], LowBytes(v, extra));
    AtOne(bytes, p, HighByte(v, extra));
    HighByteExtra(v, extra);
    LittleEndianOfLowBytes(bytes, p + 1, v, extra);
    Recombined(v, extra);
  }

  lemma Recombined(v: u64, extra: nat)
    requires extra <= 8
    ensures v % Pow256(extra) + (if extra == 8 then 0 else v / Pow256(extra)) * Pow256(extra) == v
  {
    hide Pow256;
    Powers();
    if extra < 8 {
      assert v == (v / Pow256(extra)) * Pow256(extra) + v % Pow256(extra);
    }
  }

  /** No accepted encoding of a value is shorter than the written one. */
  lemma WrittenIsShortest(bytes: Bytes, p: nat)
    requires UintAt(bytes, p).Success?
    ensures UintAt(bytes, p).value.end - p >= |EncodeUint(UintAt(bytes, p).value.value)|
  {
    hide Pow256, Threshold, HighPart;
    UintFits(bytes[p], LittleEndian(bytes, p + 1, ExtraBytes(bytes[p])));
  }

  /** push_uint: tries each length in turn. */
  method PushUint(bytes: Bytes, value: u64) returns (longer: Bytes)
    ensures longer == bytes + EncodeUint(value)
  {
    hide Pow256, Mask, LowBytes;
    for additional := 0 to 8
      invariant forall fewer: nat :: fewer < additional ==> value >= Threshold(fewer)
    {
      if value >= Threshold(additional) {
        continue;
      }
      assert WrittenExtra(value) == additional;
      longer := bytes + [HighByte(value, additional)] + LowBytes(value, additional);
      return;
    }
    assert WrittenExtra(value) == 8;
    longer := bytes + [0xff] + LowBytes(value, 8);
  }

  // ----- The reader.

  /** n bytes at position p. */
  function BytesAt(bytes: Bytes, p: nat, n: nat): (r: Result<Parsed<Bytes>>)
    ensures r.Success? ==> r.value.end == p + n <= |bytes| && |r.value.value| == n
    ensures r.Failure? ==> r.error == Format(TruncatedRange)
  {
    if p + n > |bytes| then Failure(Format(TruncatedRange)) else Success(Parsed(bytes[p..p + n], p + n))
  }

  function U8At(bytes: Bytes, p: nat): (r: Result<Parsed<u8>>)
    ensures r.Success? ==> r.value.end == p + 1 <= |bytes|
    ensures r.Failure? ==> r.error == Format(TruncatedRange)
  {
    if p >= |bytes| then Failure(Format(TruncatedRange)) else Success(Parsed(bytes[p], p + 1))
  }

  function U32At(bytes: Bytes, p: nat): (r: Result<Parsed<u32>>)
    ensures r.Success? ==> r.value.end == p + 4 <= |bytes|
    ensures r.Failure? ==> r.error == Format(TruncatedRange)
  {
    if p + 4 > |bytes| then Failure(Format(TruncatedRange))
    else
      Powers();
      Success(Parsed(LittleEndian(bytes, p, 4), p + 4))
  }

  /** A read answers the value found, moving past it, or fails in place. */
  ghost predicate Answers<T>(found: Result<Parsed<T>>, before: nat, after: nat, r: Result<T>) {
    if found.Failure? then r == Failure(found.error)
    else r == Success(found.value.value) && after == found.value.end
  }

  class BoundedReader {
    const bytes: Bytes
    var position: nat

    ghost predicate Valid()
      reads this
    {
      position <= |bytes|
    }

    constructor (bytes: Bytes)
      ensures Valid() && this.bytes == bytes && position == 0
    {
      this.bytes, this.position := bytes, 0;
    }

    method ReadBytes(length: nat) returns (r: Result<Bytes>)
      requires Valid()
      modifies this
      ensures Valid() && Answers(BytesAt(bytes, old(position), length), old(position), position, r)
    {
      var end := position + length;
      if end > |bytes| {
        return Failure(Format(TruncatedRange));
      }
      var taken := bytes[position..end];
      position := end;
      return Success(taken);
    }

    method ReadU8() returns (r: Result<u8>)
      requires Valid()
      modifies this
      ensures Valid() && Answers(U8At(bytes, old(position)), old(position), position, r)
    {
      var taken :- ReadBytes(1);
      return Success(taken[0]);
    }

    method ReadU32Le() returns (r: Result<u32>)
      requires Valid()
      modifies this
      ensures Valid() && Answers(U32At(bytes, old(position)), old(position), position, r)
    {
      hide Pow256;
      var taken :- ReadBytes(4);
      FourBytes(bytes, position - 4);
      return Success(taken[0] as int + 0x100 * taken[1] as int + 0x1_0000 * taken[2] as int
                     + 0x100_0000 * taken[3] as int);
    }

    /** Bytes are taken while the mask finds one bits; the first byte's low bits come
        last. The original ORs disjoint bit ranges, which here are sums. */
    method Read7zUint() returns (r: Result<u64>)
      requires Valid()
      modifies this
      ensures Valid() && Answers(UintAt(bytes, old(position)), old(position), position, r)
    {
      hide Pow256, LittleEndian, ExtraBytes, Mask, UintAt;
      ghost var start := position;
      UintMissing(bytes, start);
      var first :- ReadU8();
      var value := 0;
      NoLowBytes(bytes, start + 1);
      for shift := 0 to 8
        invariant Valid() && position == start + 1 + shift && shift <= ExtraBytes(first)
        invariant value == LittleEndian(bytes, start + 1, shift)
      {
        TestMask(first, shift);
        if (first / Mask(shift)) % 2 == 0 {
          UintComplete(bytes, start);
          return Success(value + (first % Mask(shift)) * Pow256(shift));
        }
        NextLowByte(bytes, start + 1, shift);
        UintTruncated(bytes, start, shift);
        var byte :- ReadU8();
        value := value + byte * Pow256(shift);
      }
      AllOnes(first);
      UintComplete(bytes, start);
      return Success(value);
    }
  }

  lemma UintMissing(bytes: Bytes, p: nat)
    ensures p >= |bytes| ==> UintAt(bytes, p) == Failure(Format(TruncatedRange))
  {
  }

  lemma UintTruncated(bytes: Bytes, p: nat, shift: nat)
    requires p < |bytes| && shift < ExtraBytes(bytes[p])
    ensures p + 1 + shift >= |bytes| ==> UintAt(bytes, p) == Failure(Format(TruncatedRange))
  {
    hide ExtraBytes, LittleEndian;
  }

  /** Eight low bytes make a whole value; fewer are topped up from the first byte. */
  lemma UintComplete(bytes: Bytes, p: nat)
    requires p < |bytes| && p + 1 + ExtraBytes(bytes[p]) <= |bytes|
    ensures
      var first, extra := bytes[p], ExtraBytes(bytes[p]);
      var low := LittleEndian(bytes, p + 1, extra);
      && (extra < 8 ==> UintAt(bytes, p) == Success(Parsed(low + (first % Mask(extra)) * Pow256(extra), p + 1 + extra)))
      && (extra == 8 ==> UintAt(bytes, p) == Success(Parsed(low, p + 1 + extra)))
  {
    hide LittleEndian, Pow256, Mask;
    var extra := ExtraBytes(bytes[p]);
    if extra < 8 {
      TestMask(bytes[p], extra);
    } else {
      assert HighPart(bytes[p]) * Pow256(8) == 0;
    }
  }

  lemma FourBytes(bytes: Bytes, p: nat)
    requires p + 4 <= |bytes|
    ensures LittleEndian(bytes, p, 4)
      == bytes[p] as int + 0x100 * bytes[p + 1] as int + 0x1_0000 * bytes[p + 2] as int
        + 0x100_0000 * bytes[p + 3] as int
  {
    Powers();
    assert LittleEndian(bytes, p, 2) == bytes[p] as int + 0x100 * bytes[p + 1] as int;
    assert LittleEndian(bytes, p, 3) == LittleEndian(bytes, p, 2) + 0x1_0000 * bytes[p + 2] as int;
  }

  lemma NoLowBytes(bytes: Bytes, p: nat)
    requires p <= |bytes|
    ensures LittleEndian(bytes, p, 0) == 0
  {
  }

  lemma NextLowByte(bytes: Bytes, p: nat, n: nat)
    requires p <= |bytes|
    ensures p + n < |bytes| ==> LittleEndian(bytes, p, n + 1) == LittleEndian(bytes, p, n) + bytes[p + n] * Pow256(n)
  {
  }

  lemma TestMask(first: u8, shift: nat)
    requires shift < 8 && shift <= ExtraBytes(first)
    ensures (first / Mask(shift)) % 2 == 0 <==> ExtraBytes(first) == shift
    ensures ExtraBytes(first) == shift ==> first % Mask(shift) == HighPart(first)
  {
    match shift
    case 0 =>
    case 1 =>
    case 2 =>
    case 3 =>
    case 4 =>
    case 5 =>
    case 6 =>
    case _ =>
  }

  lemma AllOnes(first: u8)
    requires ExtraBytes(first) >= 8
    ensures ExtraBytes(first) == 8 && HighPart(first) == 0
  {
  }
}
