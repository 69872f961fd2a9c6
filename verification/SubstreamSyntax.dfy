/** The SubStreamsInfo record: bit vectors, digests and the vectors whose lengths
    the validator later relies on. */
module SubstreamSyntax {
  import opened Support
  import opened Bounded
  import opened Model
  import opened Reading
  import opened FolderSyntax
  import Checksums

  const ID_END: u8 := 0x00
  const ID_SIZE: u8 := 0x09
  const ID_CRC: u8 := 0x0a
  const ID_NUM_UNPACK_STREAM: u8 := 0x0d

  // ----- Bit vectors, first bit highest.

  predicate BitAt(bytes: Bytes, p: nat, i: nat) {
    p + i / 8 < |bytes| && (bytes[p + i / 8] / Mask(i % 8)) % 2 == 1
  }

  /** The bytes that hold i bits. */
  function BitBytes(i: nat): nat {
    (i + 7) / 8
  }

  function Bits(bytes: Bytes, p: nat, count: nat): (bits: seq<bool>)
    ensures |bits| == count
  {
    if count == 0 then [] else Bits(bytes, p, count - 1) + [BitAt(bytes, p, count - 1)]
  }

  function Weight(flag: bool, weight: nat): nat {
    if flag then weight else 0
  }

  /** A byte is the sum of its flags, the first weighing 128 and the last 1. */
  lemma EightFlags(bytes: Bytes, p: nat, k: nat)
    requires p + k < |bytes|
    ensures
      var f := Bits(bytes, p, 8 * k + 8)[8 * k..8 * k + 8];
      bytes[p + k] == Weight(f[0], 128) + Weight(f[1], 64) + Weight(f[2], 32) + Weight(f[3], 16) + Weight(f[4], 8)
                      + Weight(f[5], 4) + Weight(f[6], 2) + Weight(f[7], 1)
  {
    hide Bits, Weight;
    var n := 8 * k + 8;
    FlagOf(bytes, p, n, k, 0);
    FlagOf(bytes, p, n, k, 1);
    FlagOf(bytes, p, n, k, 2);
    FlagOf(bytes, p, n, k, 3);
    FlagOf(bytes, p, n, k, 4);
    FlagOf(bytes, p, n, k, 5);
    FlagOf(bytes, p, n, k, 6);
    FlagOf(bytes, p, n, k, 7);
    BinaryDigits(bytes[p + k]);
  }

  lemma {:induction false} BitsPrefix(bytes: Bytes, p: nat, i: nat, n: nat)
    requires i < n
    ensures Bits(bytes, p, n)[i] == BitAt(bytes, p, i)
    decreases n
  {
    if i < n - 1 {
      BitsPrefix(bytes, p, i, n - 1);
    }
  }

  lemma FourDigits(q: nat)
    ensures q == q / 0x10 * 0x10 + Weight(q / 8 % 2 == 1, 8) + Weight(q / 4 % 2 == 1, 4) + Weight(q / 2 % 2 == 1, 2)
                 + Weight(q / 1 % 2 == 1, 1)
  {
    var a := q / 2;
    var b := a / 2;
    var c := b / 2;
    assert q / 4 == b && q / 8 == c && q / 0x10 == c / 2;
  }

  lemma HighDigits(b: u8)
    ensures b / 0x10 / 8 == b / 0x80 && b / 0x10 / 4 == b / 0x40 && b / 0x10 / 2 == b / 0x20 && b / 0x10 / 0x10 == 0
  {
  }

  lemma Sixteenfold(flag: bool, weight: nat)
    ensures 0x10 * Weight(flag, weight) == Weight(flag, 0x10 * weight)
  {
  }

  lemma BinaryDigits(b: u8)
    ensures b == Weight(b / 0x80 % 2 == 1, 128) + Weight(b / 0x40 % 2 == 1, 64) + Weight(b / 0x20 % 2 == 1, 32)
                 + Weight(b / 0x10 % 2 == 1, 16) + Weight(b / 0x08 % 2 == 1, 8) + Weight(b / 0x04 % 2 == 1, 4)
                 + Weight(b / 0x02 % 2 == 1, 2) + Weight(b / 0x01 % 2 == 1, 1)
  {
    hide Weight;
    FourDigits(b);
    FourDigits(b / 0x10);
    HighDigits(b);
    Sixteenfold(b / 0x80 % 2 == 1, 8);
    Sixteenfold(b / 0x40 % 2 == 1, 4);
    Sixteenfold(b / 0x20 % 2 == 1, 2);
    Sixteenfold(b / 0x10 % 2 == 1, 1);
  }

  /** The flag at position i of byte k, if there are that many. */
  lemma FlagOf(bytes: Bytes, p: nat, count: nat, k: nat, i: nat)
    requires p + k < |bytes| && i < 8 && 8 * k + i < count
    ensures Bits(bytes, p, count)[8 * k + i] == ((bytes[p + k] / Mask(i)) % 2 == 1)
  {
    hide Mask;
    BitsPrefix(bytes, p, 8 * k + i, count);
    assert (8 * k + i) / 8 == k && (8 * k + i) % 8 == i;
  }

  function BitsAt(bytes: Bytes, p: nat, count: nat): (r: Result<Parsed<seq<bool>>>)
    requires p <= |bytes|
    ensures r.Success? ==> p <= r.value.end <= |bytes| && |r.value.value| == count
    ensures r.Failure? ==> SyntaxFault(r.error)
  {
    if p + BitBytes(count) > |bytes| then Failure(Format(TruncatedRange))
    else Success(Parsed(Bits(bytes, p, count), p + BitBytes(count)))
  }

  lemma BitBytesStep(i: nat, count: nat)
    requires i < count
    ensures i % 8 == 0 ==> BitBytes(i) == i / 8 < BitBytes(count)
    ensures BitBytes(i + 1) == i / 8 + 1
    ensures i % 8 != 0 ==> BitBytes(i) == i / 8 + 1
  {
  }

  method ParseBits(reader: BoundedReader, count: u64, control: ParseControl) returns (r: Result<seq<bool>>)
    requires reader.Valid()
    modifies reader, control
    ensures Follows(reader, control, BitsAt(reader.bytes, old(reader.position), count), r)
  {
    hide Mask, BitBytes;
    ghost var start := reader.position;
    var _ :- control.Checkpoint(count);
    var values: seq<bool> := [];
    var byte: u8 := 0;
    NoBitBytes();
    for i := 0 to count
      invariant reader.Valid() && reader.position == start + BitBytes(i)
      invariant values == Bits(reader.bytes, start, i)
      invariant i % 8 != 0 ==> start + i / 8 < |reader.bytes| && byte == reader.bytes[start + i / 8]
      invariant control.stopped == old(control.stopped)
    {
      BitBytesStep(i, count);
      if i % 8 == 0 {
        byte :- ReadU8(reader, control);
      }
      values := values + [(byte / Mask(i % 8)) % 2 == 1];
      SameByte(i);
    }
    return Success(values);
  }

  lemma NoBitBytes()
    ensures BitBytes(0) == 0
  {
  }

  lemma SameByte(i: nat)
    ensures (i + 1) % 8 != 0 ==> (i + 1) / 8 == i / 8
  {
  }

  // ----- Digests.

  function DigestsFrom(bytes: Bytes, p: nat, defined: seq<bool>, count: nat): (r: Result<Parsed<seq<Option<bv32>>>>)
    requires p <= |bytes| && count <= |defined|
    ensures r.Success? ==> p <= r.value.end <= |bytes| && |r.value.value| == count
    ensures r.Failure? ==> SyntaxFault(r.error)
  {
    if count == 0 then Success(Parsed([], p))
    else
      var before :- DigestsFrom(bytes, p, defined, count - 1);
      if !defined[count - 1] then Success(Parsed(before.value + [None], before.end))
      else
        var digest :- U32At(bytes, before.end);
        Success(Parsed(before.value + [Some(DigestWord(digest.value))], digest.end))
  }

  /** A stored digest, as the word the checksum computes. */
  function DigestWord(value: u32): bv32 {
    Checksums.Word(value, 32)
  }

  function DigestsAt(bytes: Bytes, p: nat, count: nat): (r: Result<Parsed<seq<Option<bv32>>>>)
    requires p <= |bytes|
    ensures r.Success? ==> p <= r.value.end <= |bytes| && |r.value.value| == count
    ensures r.Failure? ==> SyntaxFault(r.error)
  {
    if count == 0 then Success(Parsed([], p))
    else
      var allDefined :- U8At(bytes, p);
      var defined :- DefinedAt(bytes, allDefined.end, allDefined.value != 0, count);
      DigestsFrom(bytes, defined.end, defined.value, count)
  }

  function DefinedAt(bytes: Bytes, p: nat, all: bool, count: nat): (r: Result<Parsed<seq<bool>>>)
    requires p <= |bytes|
    ensures r.Success? ==> p <= r.value.end <= |bytes| && |r.value.value| == count
    ensures r.Failure? ==> SyntaxFault(r.error)
  {
    if all then Success(Parsed(seq(count, _ => true), p)) else BitsAt(bytes, p, count)
  }

  lemma {:induction false} DigestsFail(bytes: Bytes, p: nat, defined: seq<bool>, a: nat, b: nat)
    requires p <= |bytes| && a <= b <= |defined| && DigestsFrom(bytes, p, defined, a).Failure?
    ensures DigestsFrom(bytes, p, defined, b) == DigestsFrom(bytes, p, defined, a)
    decreases b
  {
    hide U32At;
    if a < b {
      DigestsFail(bytes, p, defined, a, b - 1);
    }
  }

  method ReadDigests(reader: BoundedReader, defined: seq<bool>, control: ParseControl)
      returns (r: Result<seq<Option<bv32>>>)
    requires reader.Valid()
    modifies reader, control
    ensures Follows(reader, control, DigestsFrom(reader.bytes, old(reader.position), defined, |defined|), r)
  {
    hide U32At, DigestWord, SyntaxFault;
    SyntaxIsNoInterruption();
    ghost var start := reader.position;
    var digests: seq<Option<bv32>> := [];
    for i := 0 to |defined|
      invariant reader.Valid()
      invariant DigestsFrom(reader.bytes, start, defined, i) == Success(Parsed(digests, reader.position))
      invariant control.stopped == old(control.stopped)
    {
      if defined[i] {
        var digest := ReadU32Le(reader, control);
        if digest.Failure? {
          if !Interruption(digest.error) {
            DigestsFail(reader.bytes, start, defined, i + 1, |defined|);
          }
          return Failure(digest.error);
        }
        digests := digests + [Some(DigestWord(digest.value))];
      } else {
        digests := digests + [None];
      }
    }
    return Success(digests);
  }

  method ParseDigests(reader: BoundedReader, count: u64, control: ParseControl) returns (r: Result<seq<Option<bv32>>>)
    requires reader.Valid()
    modifies reader, control
    ensures Follows(reader, control, DigestsAt(reader.bytes, old(reader.position), count), r)
  {
    hide BitsAt, DigestsFrom, SyntaxFault;
    SyntaxIsNoInterruption();
    if count == 0 {
      return Success([]);
    }
    var _ :- control.Checkpoint(count);
    var allDefined :- ReadU8(reader, control);
    var defined: seq<bool>;
    if allDefined == 0 {
      defined :- ParseBits(reader, count, control);
    } else {
      defined := seq(count, _ => true);
    }
    r := ReadDigests(reader, defined, control);
  }

  method ParseSizes(reader: BoundedReader, count: u64, control: ParseControl) returns (r: Result<seq<u64>>)
    requires reader.Valid()
    modifies reader, control
    ensures Follows(reader, control, UintsAt(reader.bytes, old(reader.position), count), r)
  {
    hide UintsAt;
    var _ :- control.Checkpoint(count);
    r := ReadUints(reader, count, control);
  }

  // ----- Sections that may be present, each with the identifier that follows it.

  datatype Section<+T> = Section(value: T, id: u8)

  function Tagged<T>(bytes: Bytes, before: Parsed<T>): (r: Result<Parsed<Section<T>>>)
    ensures r.Success? ==> r.value.end == before.end + 1 <= |bytes| && r.value.value.value == before.value
    ensures r.Failure? ==> SyntaxFault(r.error)
  {
    var id :- U8At(bytes, before.end);
    Success(Parsed(Section(before.value, id.value), id.end))
  }

  function CountsAt(bytes: Bytes, p: nat, folders: nat): (r: Result<Parsed<Section<seq<u64>>>>)
    requires p <= |bytes|
    ensures r.Success? ==> p <= r.value.end <= |bytes| && |r.value.value.value| == folders
    ensures r.Failure? ==> SyntaxFault(r.error)
  {
    var id :- U8At(bytes, p);
    if id.value != ID_NUM_UNPACK_STREAM then Success(Parsed(Section(Ones(folders), id.value), id.end))
    else
      var counts :- UintsAt(bytes, id.end, folders);
      Tagged(bytes, counts)
  }

  function Ones(n: nat): (ones: seq<u64>)
    ensures |ones| == n
  {
    seq(n, _ => 1)
  }

  function SizesAt(bytes: Bytes, p: nat, id: u8, count: nat): (r: Result<Parsed<Section<Option<seq<u64>>>>>)
    requires p <= |bytes|
    ensures r.Success? ==> p <= r.value.end <= |bytes|
    ensures r.Success? && r.value.value.value.Some? ==> |r.value.value.value.value| == count
    ensures r.Failure? ==> SyntaxFault(r.error)
  {
    if id != ID_SIZE then Success(Parsed(Section(None, id), p))
    else
      var sizes :- UintsAt(bytes, p, count);
      Tagged(bytes, Parsed(Some(sizes.value), sizes.end))
  }

  function CrcsAt(bytes: Bytes, p: nat, id: u8, count: nat): (r: Result<Parsed<Section<Option<seq<Option<bv32>>>>>>)
    requires p <= |bytes|
    ensures r.Success? ==> p <= r.value.end <= |bytes|
    ensures r.Success? && r.value.value.value.Some? ==> |r.value.value.value.value| == count
    ensures r.Failure? ==> SyntaxFault(r.error)
  {
    if id != ID_CRC then Success(Parsed(Section(None, id), p))
    else
      var crcs :- DigestsAt(bytes, p, count);
      Tagged(bytes, Parsed(Some(crcs.value), crcs.end))
  }

  method ParseCounts(reader: BoundedReader, folders: nat, control: ParseControl) returns (r: Result<Section<seq<u64>>>)
    requires reader.Valid()
    modifies reader, control
    ensures Follows(reader, control, CountsAt(reader.bytes, old(reader.position), folders), r)
  {
    hide UintsAt, SyntaxFault;
    SyntaxIsNoInterruption();
    var id :- ReadU8(reader, control);
    if id != ID_NUM_UNPACK_STREAM {
      return Success(Section(Ones(folders), id));
    }
    var counts :- ReadUints(reader, folders, control);
    id :- ReadU8(reader, control);
    return Success(Section(counts, id));
  }

  method ParseSizesSection(reader: BoundedReader, id: u8, count: u64, control: ParseControl)
      returns (r: Result<Section<Option<seq<u64>>>>)
    requires reader.Valid()
    modifies reader, control
    ensures Follows(reader, control, SizesAt(reader.bytes, old(reader.position), id, count), r)
  {
    hide UintsAt, SyntaxFault;
    SyntaxIsNoInterruption();
    if id != ID_SIZE {
      return Success(Section(None, id));
    }
    var sizes :- ParseSizes(reader, count, control);
    var next :- ReadU8(reader, control);
    return Success(Section(Some(sizes), next));
  }

  method ParseCrcsSection(reader: BoundedReader, id: u8, count: u64, control: ParseControl)
      returns (r: Result<Section<Option<seq<Option<bv32>>>>>)
    requires reader.Valid()
    modifies reader, control
    ensures Follows(reader, control, CrcsAt(reader.bytes, old(reader.position), id, count), r)
  {
    hide DigestsAt, SyntaxFault;
    SyntaxIsNoInterruption();
    if id != ID_CRC {
      return Success(Section(None, id));
    }
    var crcs :- ParseDigests(reader, count, control);
    var next :- ReadU8(reader, control);
    return Success(Section(Some(crcs), next));
  }

  // ----- How many values the counts call for.

  /** A folder's last size is what the others leave. */
  function ExplicitOf(count: nat): nat {
    if count == 0 then 0 else count - 1
  }

  /** A folder with one substream and a CRC lends it that CRC. */
  function DigestsOf(count: nat, crc: Option<bv32>): nat {
    if count != 1 || crc.None? then count else 0
  }

  function TotalBefore(counts: seq<u64>, k: nat): nat
    requires k <= |counts|
  {
    if k == 0 then 0 else TotalBefore(counts, k - 1) + counts[k - 1]
  }

  lemma {:induction false} TotalIsSum(counts: seq<u64>, n: nat)
    requires n <= |counts|
    ensures TotalBefore(counts, n) == Sum(counts[..n])
    decreases n
  {
    if n > 0 {
      TotalIsSum(counts, n - 1);
      SumAppend(counts[..n - 1], counts[n - 1]);
      assert counts[..n] == counts[..n - 1] + [counts[n - 1]];
    }
  }

  function ExplicitBefore(counts: seq<u64>, k: nat): nat
    requires k <= |counts|
  {
    if k == 0 then 0 else ExplicitBefore(counts, k - 1) + ExplicitOf(counts[k - 1])
  }

  function DigestsBefore(counts: seq<u64>, crcs: Option<seq<Option<bv32>>>, k: nat): nat
    requires k <= |counts|
  {
    if k == 0 then 0 else DigestsBefore(counts, crcs, k - 1) + DigestsOf(counts[k - 1], CrcFor(crcs, k - 1))
  }

  lemma {:induction false} NeedsWithinTotal(counts: seq<u64>, crcs: Option<seq<Option<bv32>>>, k: nat, n: nat)
    requires k <= n <= |counts|
    ensures ExplicitBefore(counts, k) <= TotalBefore(counts, k) <= TotalBefore(counts, n)
    ensures DigestsBefore(counts, crcs, k) <= TotalBefore(counts, k)
    ensures ExplicitBefore(counts, k) <= ExplicitBefore(counts, n)
    ensures DigestsBefore(counts, crcs, k) <= DigestsBefore(counts, crcs, n)
    decreases n
  {
    if k < n {
      NeedsWithinTotal(counts, crcs, k, n - 1);
    } else if k > 0 {
      NeedsWithinTotal(counts, crcs, k - 1, k - 1);
    }
  }

  // ----- The record.

  datatype SubstreamRun = SubstreamRun(substreams: RawSubstreams, total: nat)

  function SubstreamsAt(bytes: Bytes, p: nat, folders: nat, folderCrcs: Option<seq<Option<bv32>>>, limits: Limits,
                        total: nat)
      : (r: Result<Parsed<SubstreamRun>>)
    requires p <= |bytes|
    ensures r.Success? ==> p <= r.value.end <= |bytes| && CountsAgree(r.value.value.substreams, folders, folderCrcs)
    ensures r.Failure? ==> SyntaxFault(r.error)
  {
    var counts :- CountsAt(bytes, p, folders);
    if TotalBefore(counts.value.value, folders) > U64_MAX then Failure(Format(SubstreamCountOverflows))
    else
      var newTotal :- AddLimited(total, TotalBefore(counts.value.value, folders), limits.maxSubstreams, Substreams);
      var sizes :- SizesAt(bytes, counts.end, counts.value.id, ExplicitBefore(counts.value.value, folders));
      var crcs :- CrcsAt(bytes, sizes.end, sizes.value.id, DigestsBefore(counts.value.value, folderCrcs, folders));
      if crcs.value.id != ID_END then Failure(Format(UnexpectedIdentifier))
      else Success(Parsed(SubstreamRun(RawSubstreams(counts.value.value, sizes.value.value, crcs.value.value), newTotal), crcs.end))
  }

  /** The vectors have the lengths the counts call for. */
  predicate CountsAgree(s: RawSubstreams, folders: nat, folderCrcs: Option<seq<Option<bv32>>>) {
    && |s.counts| == folders
    && (s.explicitSizes.Some? ==> |s.explicitSizes.value| == ExplicitBefore(s.counts, folders))
    && (s.crcs.Some? ==> |s.crcs.value| == DigestsBefore(s.counts, folderCrcs, folders))
  }

  datatype Needs = Needs(total: u64, explicitSizes: u64)

  /** Sums the counts; the explicit-size count cannot overflow before the total does. */
  method AddUpCounts(counts: seq<u64>) returns (r: Result<Needs>)
    ensures
      if TotalBefore(counts, |counts|) > U64_MAX then r == Failure(Format(SubstreamCountOverflows))
      else r.Success? && r.value.total == TotalBefore(counts, |counts|) && r.value.explicitSizes == ExplicitBefore(counts, |counts|)
  {
    var total, explicitCount := 0, 0;
    for i := 0 to |counts|
      invariant total == TotalBefore(counts, i) <= U64_MAX && explicitCount == ExplicitBefore(counts, i) <= U64_MAX
    {
      NeedsWithinTotal(counts, None, i + 1, |counts|);
      if total + counts[i] > U64_MAX {
        return Failure(Format(SubstreamCountOverflows));
      }
      total := total + counts[i];
      var additional := if counts[i] == 0 then 0 else counts[i] - 1;
      if explicitCount + additional > U64_MAX {
        return Failure(Format(ExplicitCountOverflows));
      }
      explicitCount := explicitCount + additional;
    }
    return Success(Needs(total, explicitCount));
  }

  /** Never fails: the digests are at most the substreams, whose sum fits. */
  method CountDigests(counts: seq<u64>, folderCrcs: Option<seq<Option<bv32>>>) returns (r: Result<u64>)
    requires TotalBefore(counts, |counts|) <= U64_MAX
    ensures r.Success? && r.value == DigestsBefore(counts, folderCrcs, |counts|)
  {
    var digestCount := 0;
    for i := 0 to |counts|
      invariant digestCount == DigestsBefore(counts, folderCrcs, i) <= U64_MAX
    {
      NeedsWithinTotal(counts, folderCrcs, i + 1, |counts|);
      var inherited := CrcFor(folderCrcs, i);
      if counts[i] != 1 || inherited.None? {
        if digestCount + counts[i] > U64_MAX {
          return Failure(Format(DigestCountOverflows));
        }
        digestCount := digestCount + counts[i];
      }
    }
    return Success(digestCount);
  }

  method ParseSubstreamsInfo(reader: BoundedReader, unpack: RawUnpackInfo, state: ParseState, limits: Limits,
                             control: ParseControl)
      returns (r: Result<RawSubstreams>)
    requires reader.Valid()
    modifies reader, state, control
    ensures reader.Valid() && (r.Success? ==> control.stopped == old(control.stopped))
    ensures unchanged(state`totalFolders) && unchanged(state`totalCoders) && unchanged(state`totalStreams)
    ensures unchanged(state`totalPackedStreams) && unchanged(state`totalProperties)
    ensures
      var found := SubstreamsAt(reader.bytes, old(reader.position), |unpack.folders|, unpack.crcs, limits,
                                old(state.totalSubstreams));
      if r.Success? then found == Success(Parsed(SubstreamRun(r.value, state.totalSubstreams), reader.position))
      else (Interrupted(r) && control.stopped) || found == Failure(r.error)
  {
    hide CountsAt, SizesAt, CrcsAt, TotalBefore, ExplicitBefore, DigestsBefore, CountsAgree, SyntaxFault;
    SyntaxIsNoInterruption();
    var counts :- ParseCounts(reader, |unpack.folders|, control);
    var needs :- AddUpCounts(counts.value);
    var _ :- state.AddSubstreams(needs.total, limits);
    var sizes :- ParseSizesSection(reader, counts.id, needs.explicitSizes, control);
    var digestCount := CountDigests(counts.value, unpack.crcs);
    var crcs :- ParseCrcsSection(reader, sizes.id, digestCount.value, control);
    if crcs.id != ID_END {
      return Failure(Format(UnexpectedIdentifier));
    }
    return Success(RawSubstreams(counts.value, sizes.value, crcs.value));
  }
}
