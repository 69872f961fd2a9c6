/** The bit stream of ARJ method 4 ("fastest"): the reader, most significant bit first,
    and the variable-width prefix code. */
module ArjBits {
  import opened Support
  import opened Sequences
  import opened Numbers

  // ----- Bits of a byte string, most significant first.

  type Bits = seq<bool>

  function Weight(k: nat): (w: nat)
    ensures w > 0
  {
    match k
    case 0 => 128
    case 1 => 64
    case 2 => 32
    case 3 => 16
    case 4 => 8
    case 5 => 4
    case 6 => 2
    case _ => 1
  }

  function BitOf(b: u8, k: nat): bool {
    (b / Weight(k)) % 2 == 1
  }

  function BitsOf(bytes: Bytes): (bits: Bits)
    ensures |bits| == 8 * |bytes|
  {
    seq(8 * |bytes|, i requires 0 <= i < 8 * |bytes| => BitOf(bytes[i / 8], i % 8))
  }

  lemma BitAt(bytes: Bytes, i: nat, k: nat)
    requires i < |bytes| && k < 8
    ensures BitsOf(bytes)[8 * i + k] == BitOf(bytes[i], k)
  {
    hide BitOf;
    assert (8 * i + k) / 8 == i && (8 * i + k) % 8 == k;
  }

  /** The number written, big-endian, by the n bits from position p on. */
  function Number(bits: Bits, p: nat, n: nat): (v: nat)
    requires p + n <= |bits|
    ensures v < Pow2(n)
  {
    if n == 0 then 0 else 2 * Number(bits, p, n - 1) + if bits[p + n - 1] then 1 else 0
  }

  /** Reading one more bit doubles the number, which stays within sixteen bits. */
  lemma NumberStep(bits: Bits, p: nat, n: nat)
    requires p <= |bits|
    ensures Number(bits, p, 0) == 0
    ensures n < 16 && p + n < |bits| ==>
      Number(bits, p, n + 1) == 2 * Number(bits, p, n) + (if bits[p + n] then 1 else 0) <= 0xffff
  {
    if n < 16 {
      PowersToSixteen();
      Pow2Monotone(n + 1, 16);
    }
  }

  function Digits(v: nat, n: nat): (word: Bits)
    ensures |word| == n
  {
    if n == 0 then [] else Digits(v / 2, n - 1) + [v % 2 == 1]
  }

  lemma {:induction false} NumberOfDigits(bits: Bits, p: nat, v: nat, n: nat)
    requires v < Pow2(n) && At(bits, p, Digits(v, n))
    ensures Number(bits, p, n) == v
    decreases n
  {
    if n > 0 {
      AtConcat(bits, p, Digits(v / 2, n - 1), [v % 2 == 1]);
      AtOne(bits, p + n - 1, v % 2 == 1);
      NumberOfDigits(bits, p, v / 2, n - 1);
    }
  }

  lemma {:induction false} DigitsOfNumber(bits: Bits, p: nat, n: nat)
    requires p + n <= |bits|
    ensures At(bits, p, Digits(Number(bits, p, n), n))
    decreases n
  {
    if n > 0 {
      DigitsOfNumber(bits, p, n - 1);
      AtConcat(bits, p, Digits(Number(bits, p, n - 1), n - 1), [bits[p + n - 1]]);
      AtOne(bits, p + n - 1, bits[p + n - 1]);
    }
  }

  /** What reading `count` bits at position p answers. */
  function ReadAt(bits: Bits, p: nat, count: nat): Result<nat>
    requires p <= |bits|
  {
    if count > 16 then Failure(Format(BitReadTooWide))
    else if p + count > |bits| then Failure(Format(BitStreamTruncated))
    else Success(Number(bits, p, count))
  }

  class MsbBits {
    const bytes: Bytes
    var byteOffset: nat
    var bitOffset: nat

    ghost predicate Valid()
      reads this
      ensures Valid() ==> Position() <= |Stream()|
    {
      && bitOffset < 8
      && byteOffset <= |bytes|
      && (byteOffset == |bytes| ==> bitOffset == 0)
    }

    ghost function Stream(): Bits {
      BitsOf(bytes)
    }

    /** Bits read so far. */
    ghost function Position(): nat
      reads this
    {
      8 * byteOffset + bitOffset
    }

    constructor (bytes: Bytes)
      ensures Valid() && this.bytes == bytes && Position() == 0
    {
      this.bytes, this.byteOffset, this.bitOffset := bytes, 0, 0;
    }

    /** The body of the read loop: one bit, then the offsets move on. */
    method NextBit() returns (bit: Option<bool>)
      requires Valid()
      modifies this
      ensures Valid()
      ensures old(Position()) == |Stream()| ==> bit.None?
      ensures old(Position()) < |Stream()| ==>
        bit == Some(Stream()[old(Position())]) && Position() == old(Position()) + 1
    {
      hide BitOf, BitsOf;
      if byteOffset >= |bytes| {
        return None;
      }
      BitAt(bytes, byteOffset, bitOffset);
      bit := Some(BitOf(bytes[byteOffset], bitOffset));
      bitOffset := bitOffset + 1;
      if bitOffset == 8 {
        bitOffset := 0;
        byteOffset := byteOffset + 1;
      }
    }

    method Read(count: nat) returns (r: Result<nat>)
      requires Valid()
      modifies this
      ensures Valid() && r == ReadAt(Stream(), old(Position()), count)
      ensures r.Success? ==> Position() == old(Position()) + count
    {
      hide BitsOf, Number, Pow2;
      if count > 16 {
        return Failure(Format(BitReadTooWide));
      }
      ghost var all, start := Stream(), Position();
      NumberStep(all, start, 0);
      var value, remaining := 0, count;
      while remaining > 0
        invariant Valid() && 0 <= remaining <= count && Position() == start + (count - remaining)
        invariant value == Number(all, start, count - remaining)
      {
        NumberStep(all, start, count - remaining);
        var bit := NextBit();
        if bit.None? {
          return Failure(Format(BitStreamTruncated));
        }
        var digit := if bit.value then 1 else 0;
        if value * 2 + digit > 0xffff {
          return Failure(Format(BitArithmeticOverflows));
        }
        value, remaining := value * 2 + digit, remaining - 1;
      }
      return Success(value);
    }
  }

  // ----- The variable-width code.

  /** The code word of v: one bits raise the width from `low`, a zero bit stops
      below `high`, then the offset into the width's interval follows. */
  function Code(low: nat, high: nat, v: nat): Bits
    requires low <= high
    decreases high - low
  {
    if low == high then Digits(v, high)
    else if v < Pow2(low) then [false] + Digits(v, low)
    else [true] + Code(low + 1, high, v - Pow2(low))
  }

  function Ones(n: nat): Bits {
    if n == 0 then [] else [true] + Ones(n - 1)
  }

  /** The word of a value in the interval of width k: a one bit for every width passed, a
      zero bit unless k is the last width, and k digits of what is left. */
  lemma {:induction false} CodeShape(low: nat, high: nat, v: nat, k: nat)
    requires low <= k <= high && Pow2(k) - Pow2(low) <= v < Pow2(k + 1) - Pow2(low)
    ensures Code(low, high, v)
      == Ones(k - low) + ((if k < high then [false] else []) + Digits(v - (Pow2(k) - Pow2(low)), k))
    decreases high - low
  {
    hide Digits;
    if low < k {
      Pow2Monotone(low + 1, k);
      CodeShape(low + 1, high, v - Pow2(low), k);
      var rest := (if k < high then [false] else []) + Digits(v - (Pow2(k) - Pow2(low)), k);
      assert [true] + (Ones(k - low - 1) + rest) == ([true] + Ones(k - low - 1)) + rest;
    } else {
      var word := (if k < high then [false] else []) + Digits(v, k);
      assert Ones(0) + word == word;
      if k == high {
        assert word == Digits(v, high);
      }
    }
  }

  /** The first of n bits weighs the most. */
  lemma {:induction false} FirstBitHighest(bits: Bits, p: nat, n: nat)
    requires 0 < n && p + n <= |bits|
    ensures Number(bits, p, n) == (if bits[p] then Pow2(n - 1) else 0) + Number(bits, p + 1, n - 1)
    decreases n
  {
    if n > 1 {
      FirstBitHighest(bits, p, n - 1);
    }
  }

  datatype Decoded = Decoded(value: nat, end: nat)

  /** The value whose code word stands at position p, and where the word ends. */
  function Decode(bits: Bits, p: nat, low: nat, high: nat): (r: Option<Decoded>)
    requires low <= high && p <= |bits|
    ensures r.Some? ==> p <= r.value.end <= |bits|
    decreases high - low
  {
    if low == high then Suffix(bits, p, high)
    else if p == |bits| then None
    else if !bits[p] then Suffix(bits, p + 1, low)
    else Raised(Pow2(low), Decode(bits, p + 1, low + 1, high))
  }

  function Suffix(bits: Bits, p: nat, width: nat): Option<Decoded> {
    if p + width > |bits| then None else Some(Decoded(Number(bits, p, width), p + width))
  }

  function Raised(base: nat, r: Option<Decoded>): Option<Decoded> {
    if r.None? then None else Some(r.value.(value := base + r.value.value))
  }

  /** The largest value the code can write. */
  function Largest(low: nat, high: nat): int {
    Pow2(high + 1) - Pow2(low) - 1
  }

  lemma {:induction false} DecodeInvertsCode(bits: Bits, p: nat, low: nat, high: nat, v: nat)
    requires low <= high && p <= |bits| && v <= Largest(low, high)
    requires At(bits, p, Code(low, high, v))
    ensures Decode(bits, p, low, high) == Some(Decoded(v, p + |Code(low, high, v)|))
    decreases high - low
  {
    if low == high {
      NumberOfDigits(bits, p, v, high);
    } else if v < Pow2(low) {
      AtConcat(bits, p, [false], Digits(v, low));
      AtOne(bits, p, false);
      NumberOfDigits(bits, p + 1, v, low);
    } else {
      AtConcat(bits, p, [true], Code(low + 1, high, v - Pow2(low)));
      AtOne(bits, p, true);
      DecodeInvertsCode(bits, p + 1, low + 1, high, v - Pow2(low));
    }
  }

  /** p holds the code word of what decoding finds there. */
  predicate Canonical(bits: Bits, p: nat, low: nat, high: nat, d: Decoded)
    requires low <= high
  {
    && d.value <= Largest(low, high)
    && d.end == p + |Code(low, high, d.value)|
    && At(bits, p, Code(low, high, d.value))
  }

  lemma {:induction false} CodeInvertsDecode(bits: Bits, p: nat, low: nat, high: nat)
    requires low <= high && p <= |bits| && Decode(bits, p, low, high).Some?
    ensures Canonical(bits, p, low, high, Decode(bits, p, low, high).value)
    decreases high - low
  {
    if low == high {
      DigitsOfNumber(bits, p, high);
    } else if !bits[p] {
      CanonicalStop(bits, p, low, high);
    } else {
      CodeInvertsDecode(bits, p + 1, low + 1, high);
      CanonicalRaise(bits, p, low, high, Decode(bits, p + 1, low + 1, high).value);
    }
  }

  lemma CanonicalStop(bits: Bits, p: nat, low: nat, high: nat)
    requires low < high && p + 1 + low <= |bits| && !bits[p]
    ensures Canonical(bits, p, low, high, Decoded(Number(bits, p + 1, low), p + 1 + low))
  {
    DigitsOfNumber(bits, p + 1, low);
    Pow2Monotone(low + 1, high);
    AtOne(bits, p, false);
    AtConcat(bits, p, [false], Digits(Number(bits, p + 1, low), low));
  }

  lemma CanonicalRaise(bits: Bits, p: nat, low: nat, high: nat, d: Decoded)
    requires low < high && p < |bits| && bits[p]
    requires Canonical(bits, p + 1, low + 1, high, d)
    ensures Canonical(bits, p, low, high, Decoded(Pow2(low) + d.value, d.end))
  {
    AtOne(bits, p, true);
    AtConcat(bits, p, [true], Code(low + 1, high, d.value));
    assert Code(low, high, Pow2(low) + d.value) == [true] + Code(low + 1, high, d.value);
  }

  /** No code word begins another one. */
  lemma PrefixFree(low: nat, high: nat, v: nat, w: nat)
    requires low <= high && v <= Largest(low, high) && w <= Largest(low, high)
    requires Code(low, high, v) <= Code(low, high, w)
    ensures v == w
  {
    var bits := Code(low, high, w);
    DecodeInvertsCode(bits, 0, low, high, v);
    DecodeInvertsCode(bits, 0, low, high, w);
  }

  lemma WidestValue(bits: Bits, p: nat, width: nat)
    requires width <= 15
    ensures p + width <= |bits| ==> Number(bits, p, width) + Pow2(width) <= 0xffff
  {
    PowersToSixteen();
    Pow2Monotone(width, 15);
  }

  /** What decoding a variable-width code at position p answers. */
  function DecodeAt(bits: Bits, p: nat, low: nat, high: nat): Result<nat>
    requires low <= high && p <= |bits|
  {
    var d := Decode(bits, p, low, high);
    if d.None? then Failure(Format(BitStreamTruncated)) else Success(d.value.value)
  }

  method DecodeVariable(bits: MsbBits, low: nat, high: nat) returns (r: Result<nat>)
    requires bits.Valid() && low <= high <= 15
    modifies bits
    ensures bits.Valid() && r == DecodeAt(bits.Stream(), old(bits.Position()), low, high)
    ensures r.Success? ==> bits.Position() == Decode(bits.Stream(), old(bits.Position()), low, high).value.end
  {
    hide Number, BitsOf, Pow2;
    ghost var all, start := bits.Stream(), bits.Position();
    var additional, exponent, width := 0, Pow2(low), low;
    while width < high
      invariant bits.Valid() && low <= width <= high
      invariant exponent == Pow2(width) && 0 <= additional == exponent - Pow2(low)
      invariant Decode(all, start, low, high) == Raised(additional, Decode(all, bits.Position(), width, high))
    {
      Exponents(low, width);
      NumberStep(all, bits.Position(), 0);
      var flag :- bits.Read(1);
      if flag == 0 {
        break;
      }
      if additional + exponent > 0xffff || exponent * 2 > 0xffff {
        return Failure(Format(BitArithmeticOverflows));
      }
      additional, exponent, width := additional + exponent, exponent * 2, width + 1;
    }
    assert Decode(all, start, low, high) == Raised(additional, Suffix(all, bits.Position(), width));
    r := FinishVariable(bits, width, additional);
  }

  lemma Exponents(low: nat, width: nat)
    requires low <= width < 15
    ensures Pow2(low) <= Pow2(width) && Pow2(width + 1) == 2 * Pow2(width) <= 0x8000
  {
    PowersToSixteen();
    Pow2Monotone(low, width);
    Pow2Monotone(width + 1, 15);
  }

  /** The suffix of a code word, added to what its prefix stands for. */
  method FinishVariable(bits: MsbBits, width: nat, additional: nat) returns (r: Result<nat>)
    requires bits.Valid() && width <= 15
    requires additional <= Pow2(width)
    modifies bits
    ensures bits.Valid()
    ensures
      var suffix := Raised(additional, Suffix(bits.Stream(), old(bits.Position()), width));
      if suffix.None? then r == Failure(Format(BitStreamTruncated))
      else r == Success(suffix.value.value) && bits.Position() == suffix.value.end
  {
    hide BitsOf, Pow2, Number;
    WidestValue(bits.Stream(), bits.Position(), width);
    NumberStep(bits.Stream(), bits.Position(), 0);
    var suffix := 0;
    if width != 0 {
      suffix :- bits.Read(width);
    }
    if suffix + additional > 0xffff {
      return Failure(Format(BitArithmeticOverflows));
    }
    return Success(suffix + additional);
  }
}
