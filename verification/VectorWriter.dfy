/** Bit vectors, digests and the optional vectors of a section as a writer puts them
    down, and the parser reading them back wherever they stand. */
module VectorWriter {
  import opened Support
  import opened Numbers
  import opened Sequences
  import opened Bounded
  import opened Reading
  import opened SubstreamSyntax
  import opened FolderWriter
  import Checksums

  // ----- Bit vectors.

  function FlagAt(flags: seq<bool>, i: nat): bool {
    i < |flags| && flags[i]
  }

  /** Eight flags, the first in the highest bit; a last byte is filled up with zeros. */
  function FlagByte(flags: seq<bool>, i: nat): u8 {
    Weight(FlagAt(flags, i), 128) + Weight(FlagAt(flags, i + 1), 64) + Weight(FlagAt(flags, i + 2), 32)
    + Weight(FlagAt(flags, i + 3), 16) + Weight(FlagAt(flags, i + 4), 8) + Weight(FlagAt(flags, i + 5), 4)
    + Weight(FlagAt(flags, i + 6), 2) + Weight(FlagAt(flags, i + 7), 1)
  }

  function FlagBytes(flags: seq<bool>): (bytes: Bytes)
    ensures |bytes| == (|flags| + 7) / 8
  {
    seq((|flags| + 7) / 8, k requires 0 <= k => FlagByte(flags, 8 * k))
  }

  /** A byte has one set of binary digits. */
  lemma SameDigits(f: seq<bool>, g: seq<bool>)
    requires |f| == |g| == 8
    requires
      Weight(f[0], 128) + Weight(f[1], 64) + Weight(f[2], 32) + Weight(f[3], 16) + Weight(f[4], 8) + Weight(f[5], 4)
      + Weight(f[6], 2) + Weight(f[7], 1)
      == Weight(g[0], 128) + Weight(g[1], 64) + Weight(g[2], 32) + Weight(g[3], 16) + Weight(g[4], 8) + Weight(g[5], 4)
         + Weight(g[6], 2) + Weight(g[7], 1)
    ensures forall j :: 0 <= j < 8 ==> f[j] == g[j]
  {
  }

  /** The digits a byte is made of are the ones read from it. */
  lemma DigitsRead(b: u8, f: seq<bool>, j: nat)
    requires |f| == 8 && j < 8
    requires b == Weight(f[0], 128) + Weight(f[1], 64) + Weight(f[2], 32) + Weight(f[3], 16) + Weight(f[4], 8)
                  + Weight(f[5], 4) + Weight(f[6], 2) + Weight(f[7], 1)
    ensures (b / Mask(j) % 2 == 1) == f[j]
  {
    hide Weight;
    var g := [b / 0x80 % 2 == 1, b / 0x40 % 2 == 1, b / 0x20 % 2 == 1, b / 0x10 % 2 == 1, b / 0x08 % 2 == 1,
              b / 0x04 % 2 == 1, b / 0x02 % 2 == 1, b / 0x01 % 2 == 1];
    BinaryDigits(b);
    SameDigits(g, f);
    assert g[j] == (b / Mask(j) % 2 == 1);
  }

  /** Bit j of a written byte is the flag it was written from. */
  lemma FlagRead(flags: seq<bool>, i: nat, j: nat)
    requires j < 8
    ensures (FlagByte(flags, i) / Mask(j) % 2 == 1) == FlagAt(flags, i + j)
  {
    hide Weight, FlagAt, Mask;
    DigitsRead(FlagByte(flags, i),
               [FlagAt(flags, i), FlagAt(flags, i + 1), FlagAt(flags, i + 2), FlagAt(flags, i + 3),
                FlagAt(flags, i + 4), FlagAt(flags, i + 5), FlagAt(flags, i + 6), FlagAt(flags, i + 7)], j);
  }

  lemma FlagStands(bytes: Bytes, p: nat, flags: seq<bool>, i: nat)
    requires At(bytes, p, FlagBytes(flags)) && i < |flags|
    ensures BitAt(bytes, p, i) == flags[i]
  {
    hide Mask, FlagByte;
    var k := i / 8;
    assert bytes[p + k] == FlagBytes(flags)[k] == FlagByte(flags, 8 * k);
    FlagRead(flags, 8 * k, i % 8);
  }

  /** Reading a bit vector inverts writing it. */
  lemma FlagsRoundTrip(bytes: Bytes, p: nat, flags: seq<bool>)
    requires At(bytes, p, FlagBytes(flags))
    ensures p <= |bytes| && BitsAt(bytes, p, |flags|) == Success(Parsed(flags, p + |FlagBytes(flags)|))
  {
    hide Bits, BitAt, FlagBytes;
    AtBounds(bytes, p, FlagBytes(flags));
    forall i: nat | i < |flags| ensures Bits(bytes, p, |flags|)[i] == flags[i] {
      BitsPrefix(bytes, p, i, |flags|);
      FlagStands(bytes, p, flags, i);
    }
    assert Bits(bytes, p, |flags|) == flags;
  }

  // ----- Digests.

  /** A checksum, lowest byte first. */
  function WordBytes(w: bv32): (bytes: Bytes)
    ensures |bytes| == 4
  {
    var n := Checksums.Number(w, 32);
    [n % 0x100, n / 0x100 % 0x100, n / 0x1_0000 % 0x100, n / 0x100_0000 % 0x100]
  }

  function Defined(digests: seq<Option<bv32>>): seq<bool> {
    seq(|digests|, i requires 0 <= i < |digests| => digests[i].Some?)
  }

  predicate AllDefined(digests: seq<Option<bv32>>) {
    forall i :: 0 <= i < |digests| ==> digests[i].Some?
  }

  /** The digests that are defined, one behind the other. */
  function WordRecords(digests: seq<Option<bv32>>): Bytes {
    if |digests| == 0 then []
    else
      var n := |digests| - 1;
      WordRecords(digests[..n]) + if digests[n].Some? then WordBytes(digests[n].value) else []
  }

  function DigestsRecord(digests: seq<Option<bv32>>): Bytes {
    if |digests| == 0 then []
    else if AllDefined(digests) then [1] + WordRecords(digests)
    else [0] + (FlagBytes(Defined(digests)) + WordRecords(digests))
  }

  lemma FourDigitsBack(n: nat)
    requires n < 0x1_0000_0000
    ensures n == n % 0x100 + 0x100 * (n / 0x100 % 0x100) + 0x1_0000 * (n / 0x1_0000 % 0x100)
                 + 0x100_0000 * (n / 0x100_0000 % 0x100)
  {
    var a := n / 0x100;
    var b := a / 0x100;
    assert n / 0x1_0000 == b && n / 0x100_0000 == b / 0x100;
  }

  lemma NumberBelow(w: bv32)
    ensures Checksums.Number(w, 32) < 0x1_0000_0000
  {
    Checksums.NumberBounded(w, 32);
    PowersToSixteen();
    assert Pow2(20) == 16 * Pow2(16) && Pow2(24) == 16 * Pow2(20) && Pow2(28) == 16 * Pow2(24);
    assert Pow2(32) == 16 * Pow2(28);
  }

  lemma FourBytesStand(bytes: Bytes, p: nat, a: u8, b: u8, c: u8, d: u8)
    requires At(bytes, p, [a, b, c, d])
    ensures U32At(bytes, p) == Success(Parsed(a + 0x100 * b + 0x1_0000 * c + 0x100_0000 * d, p + 4))
  {
    FourBytes(bytes, p);
    var word := bytes[p..p + 4];
    assert bytes[p] == word[0] && bytes[p + 1] == word[1] && bytes[p + 2] == word[2] && bytes[p + 3] == word[3];
  }

  lemma WordRoundTrip(bytes: Bytes, p: nat, w: bv32)
    requires At(bytes, p, WordBytes(w))
    ensures U32At(bytes, p).Success? && DigestWord(U32At(bytes, p).value.value) == w
    ensures U32At(bytes, p).value.end == p + 4
  {
    hide U32At, At;
    var n := Checksums.Number(w, 32);
    NumberBelow(w);
    FourDigitsBack(n);
    FourBytesStand(bytes, p, n % 0x100, n / 0x100 % 0x100, n / 0x1_0000 % 0x100, n / 0x100_0000 % 0x100);
    Checksums.NothingLeft(w);
    Checksums.WordOfItsNumber(w, 32);
  }

  lemma DigestStep(bytes: Bytes, p: nat, defined: seq<bool>, k: nat, before: seq<Option<bv32>>, q: nat,
                   digest: Option<bv32>)
    requires p <= |bytes| && k < |defined| && DigestsFrom(bytes, p, defined, k) == Success(Parsed(before, q))
    requires defined[k] == digest.Some? && (digest.Some? ==> At(bytes, q, WordBytes(digest.value)))
    ensures DigestsFrom(bytes, p, defined, k + 1)
      == Success(Parsed(before + [digest], q + if digest.Some? then 4 else 0))
  {
    hide U32At, DigestWord, WordBytes, At;
    if digest.Some? {
      WordRoundTrip(bytes, q, digest.value);
    }
  }

  lemma NoDigests(bytes: Bytes, p: nat, defined: seq<bool>)
    requires p <= |bytes|
    ensures DigestsFrom(bytes, p, defined, 0) == Success(Parsed([], p))
  {
  }

  lemma {:induction false} WordsRoundTrip(bytes: Bytes, p: nat, digests: seq<Option<bv32>>, defined: seq<bool>)
    requires |digests| <= |defined| && forall i :: 0 <= i < |digests| ==> defined[i] == digests[i].Some?
    requires At(bytes, p, WordRecords(digests))
    ensures p <= |bytes|
    ensures DigestsFrom(bytes, p, defined, |digests|) == Success(Parsed(digests, p + |WordRecords(digests)|))
    decreases |digests|
  {
    hide DigestsFrom, WordBytes;
    AtBounds(bytes, p, WordRecords(digests));
    if |digests| == 0 {
      NoDigests(bytes, p, defined);
    } else {
      var n := |digests| - 1;
      var last := if digests[n].Some? then WordBytes(digests[n].value) else [];
      AtConcat(bytes, p, WordRecords(digests[..n]), last);
      WordsRoundTrip(bytes, p, digests[..n], defined);
      DigestStep(bytes, p, defined, n, digests[..n], p + |WordRecords(digests[..n])|, digests[n]);
      assert digests == digests[..n] + [digests[n]];
    }
  }

  lemma DigestsStep(bytes: Bytes, p: nat, count: nat, all: u8, defined: seq<bool>, q: nat, digests: seq<Option<bv32>>,
                    end: nat)
    requires p < |bytes| && bytes[p] == all && count > 0
    requires DefinedAt(bytes, p + 1, all != 0, count) == Success(Parsed(defined, q))
    requires q <= |bytes| && |defined| == count
    requires DigestsFrom(bytes, q, defined, count) == Success(Parsed(digests, end))
    ensures DigestsAt(bytes, p, count) == Success(Parsed(digests, end))
  {
    hide DefinedAt, DigestsFrom;
  }

  /** Reading a digest vector inverts writing it, whichever digests are undefined. */
  lemma DigestsRoundTrip(bytes: Bytes, p: nat, digests: seq<Option<bv32>>)
    requires p <= |bytes| && At(bytes, p, DigestsRecord(digests))
    ensures DigestsAt(bytes, p, |digests|) == Success(Parsed(digests, p + |DigestsRecord(digests)|))
  {
    hide BitsAt, DigestsAt, DigestsFrom, WordRecords, FlagBytes, At, U8At;
    var words, n := WordRecords(digests), |digests|;
    if n == 0 {
      NoDigestsAt(bytes, p);
      assert digests == [];
    } else if AllDefined(digests) {
      var defined := seq(n, _ => true);
      FirstByte(bytes, p, 1, words);
      WordsRoundTrip(bytes, p + 1, digests, defined);
      DigestsStep(bytes, p, n, 1, defined, p + 1, digests, p + 1 + |words|);
    } else {
      var flags := FlagBytes(Defined(digests));
      FirstByte(bytes, p, 0, flags + words);
      AtConcat(bytes, p + 1, flags, words);
      FlagsRoundTrip(bytes, p + 1, Defined(digests));
      WordsRoundTrip(bytes, p + 1 + |flags|, digests, Defined(digests));
      DigestsStep(bytes, p, n, 0, Defined(digests), p + 1 + |flags|, digests, p + 1 + |flags| + |words|);
    }
  }

  lemma NoDigestsAt(bytes: Bytes, p: nat)
    requires p <= |bytes|
    ensures DigestsAt(bytes, p, 0) == Success(Parsed([], p))
  {
  }

  // ----- Vectors that may be absent. The byte behind them is the identifier of what
  // follows, read together with them.

  function SizesRecord(sizes: Option<seq<u64>>): Bytes {
    if sizes.Some? then [0x09] + UintRecords(sizes.value) else []
  }

  function CrcsRecord(crcs: Option<seq<Option<bv32>>>): Bytes {
    if crcs.Some? then [0x0a] + DigestsRecord(crcs.value) else []
  }

  /** Counts of one each need not be written. */
  function CountsRecord(counts: seq<u64>): Bytes {
    if forall i :: 0 <= i < |counts| ==> counts[i] == 1 then [] else [0x0d] + UintRecords(counts)
  }

  /** The first byte of a record, and the rest of it behind that byte. */
  lemma FirstByte(bytes: Bytes, p: nat, id: u8, rest: Bytes)
    requires At(bytes, p, [id] + rest)
    ensures p + 1 + |rest| <= |bytes| && bytes[p] == id && At(bytes, p + 1, rest)
    ensures U8At(bytes, p) == Success(Parsed(id, p + 1))
  {
    AtConcat(bytes, p, [id], rest);
    AtOne(bytes, p, id);
    AtBounds(bytes, p + 1, rest);
  }

  lemma LeadingUint(bytes: Bytes, p: nat, v: u64, rest: Bytes)
    requires At(bytes, p, EncodeUint(v) + rest)
    ensures
      var q := p + |EncodeUint(v)|;
      p < q && q + |rest| <= |bytes| && UintAt(bytes, p) == Success(Parsed(v, q)) && At(bytes, q, rest)
  {
    hide UintAt;
    AtConcat(bytes, p, EncodeUint(v), rest);
    UintRoundTrip(bytes, p, v);
    AtBounds(bytes, p + |EncodeUint(v)|, rest);
  }

  lemma SizesSection(bytes: Bytes, p: nat, sizes: Option<seq<u64>>, count: nat)
    requires At(bytes, p, SizesRecord(sizes)) && (sizes.Some? ==> |sizes.value| == count)
    requires
      var q := p + |SizesRecord(sizes)|;
      q < |bytes| && (sizes.None? ==> bytes[q] != 0x09)
    ensures
      var q := p + |SizesRecord(sizes)|;
      p < |bytes| && SizesAt(bytes, p + 1, bytes[p], count) == Success(Parsed(Section(sizes, bytes[q]), q + 1))
  {
    hide UintsAt, UintRecords;
    if sizes.Some? {
      FirstByte(bytes, p, 0x09, UintRecords(sizes.value));
      UintsRoundTrip(bytes, p + 1, sizes.value);
    }
  }

  lemma CrcsSection(bytes: Bytes, p: nat, crcs: Option<seq<Option<bv32>>>, count: nat)
    requires At(bytes, p, CrcsRecord(crcs)) && (crcs.Some? ==> |crcs.value| == count)
    requires
      var q := p + |CrcsRecord(crcs)|;
      q < |bytes| && (crcs.None? ==> bytes[q] != 0x0a)
    ensures
      var q := p + |CrcsRecord(crcs)|;
      p < |bytes| && CrcsAt(bytes, p + 1, bytes[p], count) == Success(Parsed(Section(crcs, bytes[q]), q + 1))
  {
    hide DigestsAt, DigestsRecord;
    if crcs.Some? {
      FirstByte(bytes, p, 0x0a, DigestsRecord(crcs.value));
      DigestsRoundTrip(bytes, p + 1, crcs.value);
    }
  }

  lemma CountsSection(bytes: Bytes, p: nat, counts: seq<u64>)
    requires At(bytes, p, CountsRecord(counts))
    requires
      var q := p + |CountsRecord(counts)|;
      q < |bytes| && (|CountsRecord(counts)| == 0 ==> bytes[q] != 0x0d)
    ensures
      var q := p + |CountsRecord(counts)|;
      CountsAt(bytes, p, |counts|) == Success(Parsed(Section(counts, bytes[q]), q + 1))
  {
    hide UintsAt, UintRecords;
    if forall i :: 0 <= i < |counts| ==> counts[i] == 1 {
      assert Ones(|counts|) == counts;
    } else {
      FirstByte(bytes, p, 0x0d, UintRecords(counts));
      UintsRoundTrip(bytes, p + 1, counts);
    }
  }
}
