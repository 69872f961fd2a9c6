/** CRC-32/ISO-HDLC: the table-driven incremental form, the bitwise reference,
    and what the checksum detects. */
module Checksums {
  import opened Support
  import opened Numbers

  const POLYNOMIAL: bv32 := 0xedb8_8320
  const INITIAL: bv32 := 0xffff_ffff

  // ----- Words. One function per bit operation keeps every proof step small.

  function Xor(a: bv32, b: bv32): bv32 {
    a ^ b
  }

  function Complement(v: bv32): bv32 {
    !v
  }

  function Half(v: bv32): bv32 {
    v >> 1
  }

  function Twice(v: bv32): bv32 {
    v << 1
  }

  function ByteDown(v: bv32): bv32 {
    v >> 8
  }

  function ByteUp(v: bv32): bv32 {
    v << 8
  }

  function LowByte(v: bv32): bv32 {
    v & 0xff
  }

  predicate Odd(v: bv32) {
    v & 1 != 0
  }

  predicate TopClear(v: bv32) {
    v & 0x8000_0000 == 0
  }

  function Push(v: bv32, bit: bool): bv32 {
    if bit then Twice(v) | 1 else Twice(v)
  }

  // ----- Bytes as words, and back as table indices.

  function Mask(n: nat): bv32 {
    match n
    case 0 => 0xffff_ffff
    case 1 => 0xffff_fffe
    case 2 => 0xffff_fffc
    case 3 => 0xffff_fff8
    case 4 => 0xffff_fff0
    case 5 => 0xffff_ffe0
    case 6 => 0xffff_ffc0
    case 7 => 0xffff_ff80
    case _ => 0xffff_ff00
  }

  /** Only the low n bits of w may be set. */
  predicate Fits(w: bv32, n: nat) {
    w & Mask(n) == 0
  }

  /** The word whose low n bits are the binary digits of b. */
  function Word(b: nat, n: nat): bv32 {
    if n == 0 then 0 else Push(Word(b / 2, n - 1), b % 2 == 1)
  }

  /** The number written in the low n bits of w. */
  function Number(w: bv32, n: nat): nat {
    if n == 0 then 0 else 2 * Number(Half(w), n - 1) + if Odd(w) then 1 else 0
  }

  lemma PushThenHalf(v: bv32, bit: bool)
    requires TopClear(v)
    ensures Half(Push(v, bit)) == v
    ensures Odd(Push(v, bit)) == bit
  {
  }

  lemma HalfThenPush(v: bv32)
    ensures Push(Half(v), Odd(v)) == v
  {
  }

  lemma FitsHalf(w: bv32, n: nat)
    requires 0 < n <= 8
    ensures Fits(Half(w), n - 1) == Fits(w, n)
  {
  }

  lemma FitsNothing(w: bv32)
    requires Fits(w, 0)
    ensures w == 0
  {
  }

  lemma FitsTopClear(w: bv32, n: nat)
    requires n <= 8 && Fits(w, n)
    ensures TopClear(w)
  {
  }

  lemma HalvesOfNumber(w: bv32, n: nat)
    requires n > 0
    ensures Number(w, n) / 2 == Number(Half(w), n - 1)
    ensures (Number(w, n) % 2 == 1) == Odd(w)
  {
    hide Half, Odd;
  }

  lemma {:induction false} NumberBounded(w: bv32, n: nat)
    ensures Number(w, n) < Pow2(n)
    decreases n
  {
    hide Half, Odd;
    if n > 0 {
      NumberBounded(Half(w), n - 1);
    }
  }

  lemma {:induction false} WordOfNumber(w: bv32, n: nat)
    requires n <= 8 && Fits(w, n)
    ensures Word(Number(w, n), n) == w
    decreases n
  {
    hide Fits, Push, Half, Odd, Number;
    if n == 0 {
      FitsNothing(w);
    } else {
      FitsHalf(w, n);
      WordOfNumber(Half(w), n - 1);
      HalfThenPush(w);
      HalvesOfNumber(w, n);
    }
  }

  lemma WordOpens(b: nat, n: nat)
    ensures Word(b, n) == if n == 0 then 0 else Push(Word(b / 2, n - 1), b % 2 == 1)
  {
    hide Push;
  }

  lemma NumberOpens(w: bv32, n: nat)
    ensures Number(w, n) == if n == 0 then 0 else 2 * Number(Half(w), n - 1) + if Odd(w) then 1 else 0
  {
    hide Half, Odd;
  }

  lemma NothingFitsNothing()
    ensures Fits(0, 0)
  {
  }

  lemma HalfBelow(b: nat, n: nat)
    requires n > 0 && b < Pow2(n)
    ensures b / 2 < Pow2(n - 1)
  {
  }

  lemma {:induction false} NumberOfWord(b: nat, n: nat)
    requires n <= 8 && b < Pow2(n)
    ensures Fits(Word(b, n), n) && Number(Word(b, n), n) == b
    decreases n
  {
    hide Fits, Push, Half, Odd, Number, Word, TopClear;
    WordOpens(b, n);
    NumberOpens(Word(b, n), n);
    if n == 0 {
      NothingFitsNothing();
    } else {
      HalfBelow(b, n);
      var high := Word(b / 2, n - 1);
      NumberOfWord(b / 2, n - 1);
      FitsTopClear(high, n - 1);
      PushThenHalf(high, b % 2 == 1);
      FitsHalf(Word(b, n), n);
    }
  }

  function Lane(b: u8): bv32 {
    Word(b, 8)
  }

  function Index(w: bv32): nat {
    Number(w, 8)
  }

  lemma LaneFits(b: u8)
    ensures Fits(Lane(b), 8) && Index(Lane(b)) == b
  {
    hide Fits, Word, Number;
    assert Pow2(4) == 16 && Pow2(8) == 16 * Pow2(4);
    NumberOfWord(b, 8);
  }

  lemma IndexInRange(w: bv32)
    requires Fits(w, 8)
    ensures Index(w) < 256 && Lane(Index(w)) == w
  {
    hide Fits, Word, Number;
    assert Pow2(4) == 16 && Pow2(8) == 16 * Pow2(4);
    WordOfNumber(w, 8);
    NumberBounded(w, 8);
  }

  // ----- The bitwise form.

  /** One division step of the reflected polynomial. */
  function BitStep(v: bv32): bv32 {
    if Odd(v) then Xor(Half(v), POLYNOMIAL) else Half(v)
  }

  function BitSteps(v: bv32, n: nat): bv32 {
    if n == 0 then v else BitStep(BitSteps(v, n - 1))
  }

  function ByteStep(state: bv32, b: u8): bv32 {
    BitSteps(Xor(state, Lane(b)), 8)
  }

  function Feed(state: bv32, bytes: Bytes): bv32 {
    if |bytes| == 0 then state else ByteStep(Feed(state, bytes[..|bytes| - 1]), bytes[|bytes| - 1])
  }

  /** The checksum of a whole message, bit by bit. */
  function Crc(bytes: Bytes): bv32 {
    Complement(Feed(INITIAL, bytes))
  }

  /** The nested-loop reference checksum. */
  method BitwiseCrc32(bytes: Bytes) returns (crc: bv32)
    ensures crc == Crc(bytes)
  {
    crc := 0xffff_ffff;
    for i := 0 to |bytes|
      invariant crc == Feed(INITIAL, bytes[..i])
    {
      crc := Xor(crc, Lane(bytes[i]));
      ghost var mixed := crc;
      for bit := 0 to 8
        invariant crc == BitSteps(mixed, bit)
      {
        crc := if !Odd(crc) then Half(crc) else Xor(Half(crc), 0xedb8_8320);
      }
      assert bytes[..i + 1][..i] == bytes[..i];
    }
    assert bytes[..|bytes|] == bytes;
    crc := Complement(crc);
  }

  // ----- The table-driven form.

  const CRC32_TABLE: seq<bv32> := seq(256, (k: nat) => BitSteps(Word(k, 8), 8))

  method MakeCrc32Table() returns (table: array<bv32>)
    ensures fresh(table) && table[..] == CRC32_TABLE
  {
    table := new bv32[256](_ => 0);
    var index := 0;
    while index < table.Length
      invariant 0 <= index <= table.Length == 256
      invariant forall k :: 0 <= k < index ==> table[k] == BitSteps(Word(k, 8), 8)
    {
      var initial := Word(index, 8);
      var value := initial;
      var bit := 0;
      while bit < 8
        invariant 0 <= bit <= 8
        invariant value == BitSteps(initial, bit)
      {
        value := if !Odd(value) then Half(value) else Xor(Half(value), POLYNOMIAL);
        bit := bit + 1;
      }
      table[index] := value;
      index := index + 1;
    }
  }

  // x passes over y << 1 in one step: the low bit of y << 1 is clear.
  lemma HalfAbsorbs(x: bv32, y: bv32)
    requires TopClear(y)
    ensures Half(Xor(x, Twice(y))) == Xor(Half(x), y)
  {
  }

  lemma OddIgnoresTwice(x: bv32, y: bv32)
    ensures Odd(Xor(x, Twice(y))) == Odd(x)
  {
  }

  lemma XorAssociates(x: bv32, y: bv32, z: bv32)
    ensures Xor(Xor(x, y), z) == Xor(x, Xor(y, z))
  {
  }

  lemma XorCommutes(x: bv32, y: bv32)
    ensures Xor(x, y) == Xor(y, x)
  {
  }

  lemma BitStepAbsorbs(x: bv32, y: bv32)
    requires TopClear(y)
    ensures BitStep(Xor(x, Twice(y))) == Xor(BitStep(x), y)
  {
    hide Xor, Half, Twice, Odd, TopClear;
    var mixed := Xor(x, Twice(y));
    HalfAbsorbs(x, y);
    OddIgnoresTwice(x, y);
    if Odd(x) {
      assert BitStep(mixed) == Xor(Xor(Half(x), y), POLYNOMIAL);
      assert BitStep(x) == Xor(Half(x), POLYNOMIAL);
      XorAssociates(Half(x), y, POLYNOMIAL);
      XorCommutes(y, POLYNOMIAL);
      XorAssociates(Half(x), POLYNOMIAL, y);
    }
  }


  // Eight steps absorb a whole byte.
  lemma ByteAbsorbs(x: bv32, y: bv32)
    requires y & 0xff00_0000 == 0
    ensures BitSteps(Xor(x, ByteUp(y)), 8) == Xor(BitSteps(x, 8), y)
  {
    ByteUpUnrolled(y);
    StepsAbsorb(x, y, 8);
  }

  function Up(y: bv32, n: nat): bv32 {
    if n == 0 then y else Twice(Up(y, n - 1))
  }

  predicate UpClear(y: bv32, n: nat) {
    n == 0 || (TopClear(Up(y, n - 1)) && UpClear(y, n - 1))
  }

  lemma {:induction false} StepsAbsorb(x: bv32, y: bv32, n: nat)
    requires UpClear(y, n)
    ensures BitSteps(Xor(x, Up(y, n)), n) == Xor(BitSteps(x, n), y)
    decreases n
  {
    hide Xor, Twice, TopClear, BitStep;
    if n > 0 {
      BitStepAbsorbs(x, Up(y, n - 1));
      StepsShift(Xor(x, Up(y, n)), n - 1);
      StepsAbsorb(BitStep(x), y, n - 1);
      StepsShift(x, n - 1);
    }
  }

  lemma {:induction false} StepsShift(x: bv32, n: nat)
    ensures BitSteps(x, n + 1) == BitSteps(BitStep(x), n)
    decreases n
  {
    hide BitStep;
    if n > 0 {
      StepsShift(x, n - 1);
    }
  }

  lemma ByteUpUnrolled(y: bv32)
    requires y & 0xff00_0000 == 0
    ensures UpClear(y, 8) && Up(y, 8) == ByteUp(y)
  {
    hide BitStep, Fits, Push, Half, Odd, Xor;
    assert Up(y, 1) == y << 1 && UpClear(y, 1);
    assert Up(y, 2) == y << 2 && UpClear(y, 2);
    assert Up(y, 3) == y << 3 && UpClear(y, 3);
    assert Up(y, 4) == y << 4 && UpClear(y, 4);
    assert Up(y, 5) == y << 5 && UpClear(y, 5);
    assert Up(y, 6) == y << 6 && UpClear(y, 6);
    assert Up(y, 7) == y << 7 && UpClear(y, 7);
    assert Up(y, 8) == y << 8 && UpClear(y, 8);
  }

  lemma LowPlusHigh(s: bv32)
    ensures Xor(LowByte(s), ByteUp(ByteDown(s))) == s
  {
  }

  lemma ByteDownClearsTop(s: bv32)
    ensures ByteDown(s) & 0xff00_0000 == 0
  {
  }

  lemma LowByteFits(s: bv32)
    ensures Fits(LowByte(s), 8)
  {
  }

  lemma XorFits(a: bv32, b: bv32)
    requires Fits(a, 8) && Fits(b, 8)
    ensures Fits(Xor(a, b), 8)
  {
  }

  /** One lookup replaces eight bit steps. */
  lemma TableStep(state: bv32, b: u8)
    ensures
      var index := Index(Xor(LowByte(state), Lane(b)));
      index < 256 && Xor(CRC32_TABLE[index], ByteDown(state)) == ByteStep(state, b)
  {
    hide Xor, ByteUp, ByteDown, LowByte, Fits, BitSteps, Number;
    var low := Xor(LowByte(state), Lane(b));
    LowByteFits(state);
    LaneFits(b);
    XorFits(LowByte(state), Lane(b));
    IndexInRange(low);
    LowPlusHigh(state);
    ByteDownClearsTop(state);
    var high := ByteUp(ByteDown(state));
    XorAssociates(LowByte(state), high, Lane(b));
    XorCommutes(high, Lane(b));
    XorAssociates(LowByte(state), Lane(b), high);
    assert Xor(state, Lane(b)) == Xor(low, high);
    ByteAbsorbs(low, ByteDown(state));
  }

  class Crc32 {
    var state: bv32

    constructor ()
      ensures state == INITIAL
    {
      state := INITIAL;
    }

    method Update(bytes: Bytes)
      modifies this
      ensures state == Feed(old(state), bytes)
    {
      for i := 0 to |bytes|
        invariant state == Feed(old(state), bytes[..i])
      {
        var index := Index(Xor(LowByte(state), Lane(bytes[i])));
        TableStep(state, bytes[i]);
        state := Xor(CRC32_TABLE[index], ByteDown(state));
        assert bytes[..i + 1][..i] == bytes[..i];
      }
      assert bytes[..|bytes|] == bytes;
    }

    function Finalize(): bv32
      reads this
    {
      Complement(state)
    }
  }

  // ----- Splitting the message.

  lemma {:induction false} FeedSplit(state: bv32, a: Bytes, b: Bytes)
    ensures Feed(state, a + b) == Feed(Feed(state, a), b)
    decreases |b|
  {
    hide ByteStep;
    if |b| == 0 {
      assert a + b == a;
    } else {
      var n := |b| - 1;
      assert (a + b)[..|a + b| - 1] == a + b[..n];
      FeedSplit(state, a, b[..n]);
    }
  }

  function Concat(chunks: seq<Bytes>): Bytes {
    if |chunks| == 0 then [] else Concat(chunks[..|chunks| - 1]) + chunks[|chunks| - 1]
  }

  /** One `Update` per chunk, whatever the chunks. */
  method CrcOfChunks(chunks: seq<Bytes>) returns (crc: bv32)
    ensures crc == Crc(Concat(chunks))
  {
    hide ByteStep, Complement;
    var checksum := new Crc32();
    for i := 0 to |chunks|
      invariant checksum.state == Feed(INITIAL, Concat(chunks[..i]))
    {
      checksum.Update(chunks[i]);
      assert chunks[..i + 1][..i] == chunks[..i];
      FeedSplit(INITIAL, Concat(chunks[..i]), chunks[i]);
    }
    assert chunks[..|chunks|] == chunks;
    crc := checksum.Finalize();
  }

  /** The budgeted helper: charges one unit a byte, a chunk at a time. */
  method Checksum(bytes: Bytes, control: ParseControl) returns (r: Result<bv32>)
    requires |bytes| <= U64_MAX
    modifies control
    ensures r.Success? ==> r.value == Crc(bytes) && control.Charged(|bytes|)
    ensures r.Failure? ==> Interrupted(r) && control.stopped
    ensures old(control.Ample(|bytes|)) ==> r.Success?
  {
    hide ByteStep, Complement;
    var checksum := new Crc32();
    var start := 0;
    while start < |bytes|
      invariant 0 <= start <= |bytes| && control.Charged(start)
      invariant checksum.state == Feed(INITIAL, bytes[..start])
    {
      var end := if |bytes| - start < CONTROL_CHUNK_SIZE then |bytes| else start + CONTROL_CHUNK_SIZE;
      var _ :- control.Checkpoint(end - start);
      checksum.Update(bytes[start..end]);
      assert bytes[..end] == bytes[..start] + bytes[start..end];
      FeedSplit(INITIAL, bytes[..start], bytes[start..end]);
      start := end;
    }
    assert bytes[..start] == bytes;
    return Success(checksum.Finalize());
  }

  // ----- The message bit by bit, in the order the register takes the bits.

  /** One bit enters at the low end. */
  function BitIn(state: bv32, bit: bool): bv32 {
    BitStep(Enter(state, bit))
  }

  function Enter(state: bv32, bit: bool): bv32 {
    if bit then Xor(state, 1) else state
  }

  function FeedBits(state: bv32, bits: seq<bool>): bv32
    decreases |bits|
  {
    if |bits| == 0 then state else FeedBits(BitIn(state, bits[0]), bits[1..])
  }

  /** The n low bits of b, lowest first. */
  function BitsOf(b: nat, n: nat): (bits: seq<bool>)
    ensures |bits| == n
  {
    if n == 0 then [] else [b % 2 == 1] + BitsOf(b / 2, n - 1)
  }

  /** The bits of the message: byte by byte, each from its lowest bit. */
  function BitString(bytes: Bytes): (bits: seq<bool>)
    ensures |bits| == 8 * |bytes|
  {
    if |bytes| == 0 then [] else BitString(bytes[..|bytes| - 1]) + BitsOf(bytes[|bytes| - 1], 8)
  }

  lemma {:induction false} BitsOfAt(b: nat, n: nat, i: nat)
    requires i < n
    ensures BitsOf(b, n)[i] == (b / Pow2(i) % 2 == 1)
    decreases n
  {
    if i > 0 {
      HalfQuotient(b, Pow2(i - 1), Pow2(i));
      BitsOfAt(b / 2, n - 1, i - 1);
    }
  }

  /** Bit i of byte j, counting from the lowest, is bit 8 j + i of the message. */
  lemma {:induction false} BitStringAt(bytes: Bytes, j: nat, i: nat)
    requires j < |bytes| && i < 8
    ensures BitString(bytes)[8 * j + i] == (bytes[j] / Pow2(i) % 2 == 1)
    decreases |bytes|
  {
    hide Pow2;
    if j < |bytes| - 1 {
      BitStringAt(bytes[..|bytes| - 1], j, i);
    } else {
      BitsOfAt(bytes[j], 8, i);
    }
  }

  lemma PushedIn(state: bv32, w: bv32, bit: bool)
    ensures Xor(state, Push(w, bit)) == Xor(Enter(state, bit), Twice(w))
  {
  }

  lemma {:induction false} WordIsBits(state: bv32, b: nat, n: nat)
    requires n <= 8 && b < Pow2(n)
    ensures BitSteps(Xor(state, Word(b, n)), n) == FeedBits(state, BitsOf(b, n))
    decreases n
  {
    hide Xor, Push, Twice, BitStep, Fits, TopClear, Word, Enter;
    WordOpens(b, n);
    if n == 0 {
      XorZero(state);
    } else {
      var bit, high := b % 2 == 1, Word(b / 2, n - 1);
      HalfBelow(b, n);
      NumberOfWord(b / 2, n - 1);
      FitsTopClear(high, n - 1);
      PushedIn(state, high, bit);
      BitStepAbsorbs(Enter(state, bit), high);
      StepsShift(Xor(state, Word(b, n)), n - 1);
      WordIsBits(BitIn(state, bit), b / 2, n - 1);
      assert BitsOf(b, n)[1..] == BitsOf(b / 2, n - 1);
    }
  }

  lemma XorZero(s: bv32)
    ensures Xor(s, 0) == s
  {
  }

  lemma {:induction false} FeedBitsSplit(state: bv32, a: seq<bool>, b: seq<bool>)
    ensures FeedBits(state, a + b) == FeedBits(FeedBits(state, a), b)
    decreases |a|
  {
    hide BitIn;
    if |a| == 0 {
      assert a + b == b;
    } else {
      assert (a + b)[1..] == a[1..] + b;
      FeedBitsSplit(BitIn(state, a[0]), a[1..], b);
    }
  }

  /** Feeding bytes is feeding their bits. */
  lemma {:induction false} FeedIsBits(state: bv32, bytes: Bytes)
    ensures Feed(state, bytes) == FeedBits(state, BitString(bytes))
    decreases |bytes|
  {
    hide BitSteps, Xor, BitIn, Word, FeedBits;
    if |bytes| == 0 {
      NoBits(state);
    } else {
      var n := |bytes| - 1;
      var before := Feed(state, bytes[..n]);
      FeedIsBits(state, bytes[..n]);
      assert Pow2(4) == 16 && Pow2(8) == 16 * Pow2(4);
      WordIsBits(before, bytes[n], 8);
      FeedBitsSplit(state, BitString(bytes[..n]), BitsOf(bytes[n], 8));
    }
  }

  lemma NoBits(state: bv32)
    ensures FeedBits(state, []) == state
  {
  }

  lemma {:induction false} BitsDetermine(a: nat, b: nat, n: nat)
    requires a < Pow2(n) && b < Pow2(n) && BitsOf(a, n) == BitsOf(b, n)
    ensures a == b
    decreases n
  {
    if n > 0 {
      assert BitsOf(a, n)[0] == BitsOf(b, n)[0];
      assert BitsOf(a, n)[1..] == BitsOf(a / 2, n - 1) && BitsOf(b, n)[1..] == BitsOf(b / 2, n - 1);
      BitsDetermine(a / 2, b / 2, n - 1);
    }
  }

  lemma {:induction false} BitStringDetermines(a: Bytes, b: Bytes)
    requires |a| == |b| && BitString(a) == BitString(b)
    ensures a == b
    decreases |a|
  {
    if |a| > 0 {
      var n := |a| - 1;
      var before, before' := BitString(a[..n]), BitString(b[..n]);
      assert before == BitString(a)[..8 * n] == before';
      assert BitsOf(a[n], 8) == BitString(a)[8 * n..] == BitsOf(b[n], 8);
      assert Pow2(4) == 16 && Pow2(8) == 16 * Pow2(4);
      BitsDetermine(a[n], b[n], 8);
      BitStringDetermines(a[..n], b[..n]);
      assert a == a[..n] + [a[n]] && b == b[..n] + [b[n]];
    }
  }

  // ----- What the checksum detects.

  lemma BitInInjective(a: bv32, b: bv32, bit: bool)
    requires BitIn(a, bit) == BitIn(b, bit)
    ensures a == b
  {
  }

  /** States that differ stay different under equal input. */
  lemma {:induction false} FeedBitsInjective(a: bv32, b: bv32, bits: seq<bool>)
    requires FeedBits(a, bits) == FeedBits(b, bits)
    ensures a == b
    decreases |bits|
  {
    hide BitIn;
    if |bits| > 0 {
      FeedBitsInjective(BitIn(a, bits[0]), BitIn(b, bits[0]), bits[1..]);
      BitInInjective(a, b, bits[0]);
    }
  }

  function Halves(v: bv32, n: nat): bv32 {
    if n == 0 then v else Halves(Half(v), n - 1)
  }

  lemma {:induction false} HalvesSplit(v: bv32, m: nat, n: nat)
    ensures Halves(v, m + n) == Halves(Halves(v, m), n)
    decreases m
  {
    hide Half;
    if m > 0 {
      HalvesSplit(Half(v), m - 1, n);
    }
  }

  lemma {:induction false} HalvesOfZero(n: nat)
    ensures Halves(0, n) == 0
    decreases n
  {
    if n > 0 {
      HalvesOfZero(n - 1);
    }
  }

  function FourDown(v: bv32): bv32 {
    v >> 4
  }

  predicate Meets(v: bv32, m: bv32) {
    v & m != 0
  }

  /** The top bit of each group of four, lowest group first. */
  function Rung(k: nat): bv32 {
    match k
    case 0 => 0x8
    case 1 => 0x80
    case 2 => 0x800
    case 3 => 0x8000
    case 4 => 0x8_0000
    case 5 => 0x80_0000
    case 6 => 0x800_0000
    case _ => 0x8000_0000
  }

  lemma NextRung(k: nat)
    requires 0 < k <= 7
    ensures FourDown(Rung(k)) == Rung(k - 1) && Rung(k) & 0xf == 0
  {
  }

  lemma MeetsBelow(v: bv32, m: bv32)
    requires Meets(v, m) && m & 0xf == 0
    ensures Meets(FourDown(v), FourDown(m))
  {
  }

  lemma HalfFour(v: bv32)
    ensures Half(Half(Half(Half(v)))) == FourDown(v)
  {
  }

  lemma HalfThree(v: bv32)
    requires Meets(v, 0x8)
    ensures Half(Half(Half(v))) != 0
  {
  }

  lemma HalvesStep(v: bv32, n: nat)
    ensures Halves(v, n + 1) == Halves(Half(v), n) && Halves(v, 0) == v
  {
    hide Half;
  }

  lemma HalvesOpen(v: bv32)
    ensures Halves(v, 3) == Half(Half(Half(v))) && Halves(v, 4) == Half(Half(Half(Half(v))))
  {
    hide Half, Halves;
    HalvesStep(v, 3);
    HalvesStep(v, 2);
    HalvesStep(Half(v), 2);
    HalvesStep(Half(v), 1);
    HalvesStep(Half(Half(v)), 1);
    HalvesStep(Half(Half(v)), 0);
    HalvesStep(Half(Half(Half(v))), 0);
    HalvesStep(Half(Half(Half(Half(v)))), 0);
  }

  lemma {:induction false} RungStays(v: bv32, k: nat)
    requires k <= 7 && Meets(v, Rung(k))
    ensures Halves(v, 4 * k + 3) != 0
    decreases k
  {
    hide Half, FourDown, Meets, Rung, Halves;
    HalvesOpen(v);
    if k == 0 {
      assert Rung(0) == 0x8 by {
        LowestRung();
      }
      HalfThree(v);
    } else {
      NextRung(k);
      MeetsBelow(v, Rung(k));
      HalfFour(v);
      RungStays(FourDown(v), k - 1);
      HalvesSplit(v, 4, 4 * k - 1);
    }
  }

  lemma LowestRung()
    ensures Rung(0) == 0x8
  {
  }

  lemma TopMeets(v: bv32)
    ensures TopClear(v) || Meets(v, Rung(7))
  {
  }

  /** The top bit is the last to leave. */
  lemma TopStays(v: bv32, n: nat)
    requires n <= 31 && Halves(v, n) == 0
    ensures TopClear(v)
  {
    hide Half, Meets, Rung, Halves, TopClear;
    HalvesSplit(v, n, 31 - n);
    HalvesOfZero(31 - n);
    TopMeets(v);
    if Meets(v, Rung(7)) {
      RungStays(v, 7);
    }
  }

  lemma EnterHalves(a: bv32, bit: bool)
    ensures Half(Enter(a, bit)) == Half(a) && Odd(Enter(a, bit)) == (Odd(a) != bit)
  {
  }

  lemma HalfOfXor(a: bv32, b: bv32)
    ensures Half(Xor(a, b)) == Xor(Half(a), Half(b)) && TopClear(Half(a))
  {
  }

  lemma BothStepped(a: bv32, b: bv32)
    ensures Xor(Xor(a, POLYNOMIAL), Xor(b, POLYNOMIAL)) == Xor(a, b)
  {
  }

  lemma OneStepped(a: bv32, b: bv32)
    requires TopClear(a) && TopClear(b)
    ensures !TopClear(Xor(Xor(a, POLYNOMIAL), b)) && !TopClear(Xor(a, Xor(b, POLYNOMIAL)))
  {
  }

  /** Two registers drop the same low bit, unless the top bit of their difference is set after. */
  lemma DifferenceHalves(a: bv32, b: bv32, p: bool, q: bool)
    ensures
      var difference := Xor(BitIn(a, p), BitIn(b, q));
      if Odd(Enter(a, p)) == Odd(Enter(b, q)) then difference == Half(Xor(a, b)) else !TopClear(difference)
  {
    hide Xor, Half, Odd, TopClear, Enter;
    EnterHalves(a, p);
    EnterHalves(b, q);
    HalfOfXor(a, b);
    HalfOfXor(b, a);
    BothStepped(Half(a), Half(b));
    OneStepped(Half(a), Half(b));
  }

  lemma SameState(a: bv32)
    ensures Xor(a, a) == 0
  {
  }

  /** At most 32 bits bring two registers together only if they differ in as many low bits. */
  lemma {:induction false} Converging(a: bv32, b: bv32, u: seq<bool>, w: seq<bool>)
    requires |u| == |w| <= 32 && FeedBits(a, u) == FeedBits(b, w)
    ensures Halves(Xor(a, b), |u|) == 0
    decreases |u|
  {
    hide BitIn, Xor, Half, Odd, Enter, TopClear;
    if |u| == 0 {
      SameState(a);
    } else {
      var a', b' := BitIn(a, u[0]), BitIn(b, w[0]);
      Converging(a', b', u[1..], w[1..]);
      TopStays(Xor(a', b'), |u| - 1);
      DifferenceHalves(a, b, u[0], w[0]);
    }
  }

  lemma Parted(state: bv32, p: bool, u: seq<bool>, w: seq<bool>)
    requires |u| == |w| <= 31
    ensures FeedBits(BitIn(state, p), u) != FeedBits(BitIn(state, !p), w)
  {
    hide BitIn, Xor, Half, Odd, Enter, TopClear, Halves, FeedBits;
    if FeedBits(BitIn(state, p), u) == FeedBits(BitIn(state, !p), w) {
      Converging(BitIn(state, p), BitIn(state, !p), u, w);
      TopStays(Xor(BitIn(state, p), BitIn(state, !p)), |u|);
      DifferenceHalves(state, state, p, !p);
      EnterHalves(state, p);
      EnterHalves(state, !p);
      assert false;
    }
  }

  /** Different windows of at most 32 bits leave different registers. */
  lemma {:induction false} WindowInjective(state: bv32, u: seq<bool>, w: seq<bool>)
    requires |u| == |w| <= 32 && FeedBits(state, u) == FeedBits(state, w)
    ensures u == w
    decreases |u|
  {
    hide BitIn;
    if |u| > 0 {
      if u[0] != w[0] {
        Parted(state, u[0], u[1..], w[1..]);
      }
      WindowInjective(BitIn(state, u[0]), u[1..], w[1..]);
      assert u == [u[0]] + u[1..] && w == [w[0]] + w[1..];
    }
  }

  // ----- Words as numbers.

  /** Bit i of a word, the lowest first. */
  predicate BitOf(w: bv32, i: nat) {
    Odd(Halves(w, i))
  }

  lemma {:induction false} AllHalves(w: bv32, k: nat)
    requires k <= 8
    ensures Halves(w, 4 * k) == Fours(w, k)
    decreases k
  {
    hide Half, FourDown;
    if k > 0 {
      HalvesOpen(w);
      HalfFour(w);
      HalvesSplit(w, 4, 4 * (k - 1));
      AllHalves(FourDown(w), k - 1);
    }
  }

  function Fours(w: bv32, k: nat): bv32 {
    if k == 0 then w else Fours(FourDown(w), k - 1)
  }

  lemma NothingLeft(w: bv32)
    ensures Halves(w, 32) == 0
  {
    hide Halves;
    AllHalves(w, 8);
    EightFours(w);
  }

  lemma EightFours(w: bv32)
    ensures Fours(w, 8) == 0
  {
    hide FourDown;
    var a := FourDown(w);
    var b := FourDown(a);
    var c := FourDown(b);
    var d := FourDown(c);
    FoursStep(w, 7);
    FoursStep(a, 6);
    FoursStep(b, 5);
    FoursStep(c, 4);
    FoursStep(d, 3);
    FoursStep(FourDown(d), 2);
    FoursStep(FourDown(FourDown(d)), 1);
    FoursStep(FourDown(FourDown(FourDown(d))), 0);
    EightShifts(w);
  }

  lemma FoursStep(w: bv32, k: nat)
    ensures Fours(w, k + 1) == Fours(FourDown(w), k) && Fours(w, 0) == w
    ensures k == 0 ==> Fours(FourDown(w), 0) == FourDown(w)
  {
    hide FourDown;
  }

  lemma EightShifts(w: bv32)
    ensures FourDown(FourDown(FourDown(FourDown(FourDown(FourDown(FourDown(FourDown(w)))))))) == 0
  {
  }

  /** A word is determined by its number. */
  lemma {:induction false} WordOfItsNumber(w: bv32, n: nat)
    requires Halves(w, n) == 0
    ensures Word(Number(w, n), n) == w
    decreases n
  {
    hide Half, Odd, Push;
    if n > 0 {
      HalfThenPush(w);
      HalvesOfNumber(w, n);
      WordOfItsNumber(Half(w), n - 1);
    }
  }

  /** Bit i of the word is digit i of the number. */
  lemma {:induction false} WordBit(b: nat, n: nat, i: nat)
    requires n <= 32 && i < n
    ensures BitOf(Word(b, n), i) == (b / Pow2(i) % 2 == 1)
    decreases i
  {
    hide Half, Odd, Push, TopClear;
    WordOpens(b, n);
    WordTop(b / 2, n - 1);
    PushThenHalf(Word(b / 2, n - 1), b % 2 == 1);
    if i > 0 {
      HalfQuotient(b, Pow2(i - 1), Pow2(i));
      WordBit(b / 2, n - 1, i - 1);
    }
  }

  /** Fewer than 32 digits leave the top bit clear. */
  lemma {:induction false} WordTop(b: nat, n: nat)
    requires n <= 31
    ensures Halves(Word(b, n), n) == 0 && TopClear(Word(b, n))
    decreases n
  {
    hide Half, Push, TopClear;
    WordOpens(b, n);
    if n > 0 {
      WordTop(b / 2, n - 1);
      PushThenHalf(Word(b / 2, n - 1), b % 2 == 1);
    }
    TopStays(Word(b, n), n);
  }

  lemma ComplementInjective(a: bv32, b: bv32)
    requires Complement(a) == Complement(b)
    ensures a == b
  {
    assert !!a == a && !!b == b;
  }

  lemma WindowBetween(state: bv32, before: seq<bool>, u: seq<bool>, w: seq<bool>, after: seq<bool>)
    requires |u| == |w| <= 32 && FeedBits(state, before + (u + after)) == FeedBits(state, before + (w + after))
    ensures u == w
  {
    hide FeedBits;
    var reached := FeedBits(state, before);
    FeedBitsSplit(state, before, u + after);
    FeedBitsSplit(state, before, w + after);
    FeedBitsSplit(reached, u, after);
    FeedBitsSplit(reached, w, after);
    FeedBitsInjective(FeedBits(reached, u), FeedBits(reached, w), after);
    WindowInjective(reached, u, w);
  }

  lemma CutOut(s: seq<bool>, start: nat, end: nat)
    requires start <= end <= |s|
    ensures s == s[..start] + (s[start..end] + s[end..])
  {
  }

  /** Bits that agree outside a window, and leave the same register, agree in it. */
  lemma BitBurst(state: bv32, a: seq<bool>, b: seq<bool>, from: nat)
    requires |a| == |b| && FeedBits(state, a) == FeedBits(state, b)
    requires forall i :: 0 <= i < |a| && !(from <= i < from + 32) ==> a[i] == b[i]
    ensures a == b
  {
    hide FeedBits;
    var start := if from <= |a| then from else |a|;
    var end := if from + 32 <= |a| then from + 32 else |a|;
    assert a[..start] == b[..start] && a[end..] == b[end..];
    CutOut(a, start, end);
    CutOut(b, start, end);
    WindowBetween(state, a[..start], a[start..end], b[start..end], a[end..]);
  }

  /** Messages of equal length that differ, but only inside 32 consecutive bits, have
      different checksums, wherever in a byte the bits begin. */
  lemma BurstDetected(a: Bytes, b: Bytes, from: nat)
    requires |a| == |b| && a != b
    requires forall i :: 0 <= i < 8 * |a| && !(from <= i < from + 32) ==> BitString(a)[i] == BitString(b)[i]
    ensures Crc(a) != Crc(b)
  {
    hide Complement, Feed, FeedBits;
    if Crc(a) == Crc(b) {
      ComplementInjective(Feed(INITIAL, a), Feed(INITIAL, b));
      FeedIsBits(INITIAL, a);
      FeedIsBits(INITIAL, b);
      BitBurst(INITIAL, BitString(a), BitString(b), from);
      BitStringDetermines(a, b);
    }
  }
}
