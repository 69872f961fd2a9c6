/** What a validated section says, field by field, of the record it was made from. */
module SectionMeaning {
  import opened Support
  import opened Model
  import opened Graph
  import opened Folders
  import opened SubstreamSyntax
  import opened StreamSyntax
  import opened FolderValidation
  import opened StreamValidation
  import opened HeaderValidation

  // ----- Coders.

  /** The dictionary a coder's properties declare; none counts as no bytes. */
  function DictionaryOf(c: RawCoder, tables: Tables): nat {
    match tables.declarationOf(c.methodId, c.properties)
    case Dictionary(size) => size
    case _ => 0
  }

  function DictionarySum(coders: seq<RawCoder>, tables: Tables): nat {
    if |coders| == 0 then 0 else DictionaryOf(coders[0], tables) + DictionarySum(coders[1..], tables)
  }

  lemma {:induction false} DictionaryFrom(coders: seq<RawCoder>, tables: Tables, k: nat)
    requires k <= |coders|
    ensures DictionaryTotal(coders, tables, k) + DictionarySum(coders[k..], tables)
         == DictionaryTotal(coders, tables, |coders|)
    decreases |coders| - k
  {
    if k < |coders| {
      DictionaryFrom(coders, tables, k + 1);
      assert coders[k..][1..] == coders[k + 1..];
    }
  }

  lemma {:induction false} EachWithinSum(coders: seq<RawCoder>, tables: Tables, i: nat)
    requires i < |coders|
    ensures DictionaryOf(coders[i], tables) <= DictionarySum(coders, tables)
    decreases |coders|
  {
    if i > 0 {
      EachWithinSum(coders[1..], tables, i - 1);
    }
  }

  /** Coders are accepted if and only if none declares malformed properties or too costly
      a key derivation, all dictionaries together keep the limit, and the ports add up. */
  lemma CodersAcceptedExactly(raw: RawFolder, tables: Tables, limits: Limits)
    ensures CodersAcceptable(raw, tables, limits) <==>
      && (forall c :: c in raw.coders ==> tables.declarationOf(c.methodId, c.properties) !in {Malformed, KdfTooCostly})
      && DictionarySum(raw.coders, tables) <= limits.maxDictionaryBytes
      && Before(InputCounts(raw.coders), |raw.coders|) == raw.inputStreams
      && Before(OutputCounts(raw.coders), |raw.coders|) == raw.outputStreams
  {
    hide Before, InputCounts, OutputCounts, DictionaryTotal, DictionarySum, CheckProperties;
    var coders := raw.coders;
    NothingTotal(coders, tables);
    DictionaryFrom(coders, tables, 0);
    assert coders[0..] == coders;
    forall i: nat | i < |coders|
      ensures DictionaryOf(coders[i], tables) <= DictionarySum(coders, tables)
      ensures CheckProperties(coders[i], tables, limits).Success? <==>
        && tables.declarationOf(coders[i].methodId, coders[i].properties) !in {Malformed, KdfTooCostly}
        && DictionaryOf(coders[i], tables) <= limits.maxDictionaryBytes
    {
      EachWithinSum(coders, tables, i);
      OneDeclared(coders[i], tables, limits);
    }
  }

  lemma NothingTotal(coders: seq<RawCoder>, tables: Tables)
    ensures DictionaryTotal(coders, tables, 0) == 0
  {
  }

  lemma OneDeclared(c: RawCoder, tables: Tables, limits: Limits)
    ensures CheckProperties(c, tables, limits).Success? <==>
      && tables.declarationOf(c.methodId, c.properties) !in {Malformed, KdfTooCostly}
      && DictionaryOf(c, tables) <= limits.maxDictionaryBytes
  {
  }

  // ----- Packed streams.

  /** The first stream stands 32 bytes and the recorded position behind the signature. */
  lemma FirstStream(streams: seq<PackStream>, pack: RawPackInfo, envelope: Envelope, archive: Bytes)
    requires PackStreamsOk(streams, pack, envelope, archive) && |streams| > 0
    ensures streams[0].offset == envelope.signatureOffset + 32 + pack.position
  {
    assert streams[0] == PackStreamOf(pack, envelope, 0);
  }

  /** Stream k has the k-th size and the k-th digest, and ends where the next one starts. */
  lemma StreamFields(streams: seq<PackStream>, pack: RawPackInfo, envelope: Envelope, archive: Bytes, k: nat)
    requires PackStreamsOk(streams, pack, envelope, archive) && PackAcceptable(pack, envelope, archive) && k < |streams|
    ensures streams[k].size == Some(pack.sizes.value[k])
    ensures streams[k].crc == if pack.crcs.None? then None else pack.crcs.value[k]
    ensures k + 1 < |streams| ==> streams[k + 1].offset == streams[k].offset + pack.sizes.value[k]
  {
    hide SectionStart, StreamAcceptable;
    assert streams[k] == PackStreamOf(pack, envelope, k);
    SumGrows(pack.sizes.value, k);
  }

  lemma {:induction false} BeforeIsSum(sizes: seq<u64>, k: nat)
    requires k <= |sizes|
    ensures SizesBefore(sizes, k) == Sum(sizes[..k])
    decreases k
  {
    if k > 0 {
      BeforeIsSum(sizes, k - 1);
      SumAppend(sizes[..k - 1], sizes[k - 1]);
      assert sizes[..k] == sizes[..k - 1] + [sizes[k - 1]];
    }
  }

  /** Packed streams are accepted if and only if there is a size for each, none unknown,
      a digest for each if any, and the last one ends before the next header and inside
      the archive. */
  lemma PackAcceptedExactly(pack: RawPackInfo, envelope: Envelope, archive: Bytes)
    requires PackCounted(pack)
    ensures PackAcceptable(pack, envelope, archive) <==>
      && pack.sizes.Some? && (forall k :: 0 <= k < |pack.sizes.value| ==> pack.sizes.value[k] != 0xffff_ffff_ffff_ffff)
      && envelope.signatureOffset + 32 + pack.position <= U64_MAX
      && (var end := envelope.signatureOffset + 32 + pack.position + Sum(pack.sizes.value);
          end <= envelope.nextHeaderOffset && end <= |archive|)
  {
    hide SizesBefore, Sum;
    if pack.sizes.Some? {
      var sizes := pack.sizes.value;
      var n := |sizes|;
      BeforeIsSum(sizes, n);
      assert sizes[..n] == sizes;
      if PackAcceptable(pack, envelope, archive) {
        assert StreamAcceptable(pack, envelope, archive, n - 1);
        forall k | 0 <= k < n ensures sizes[k] != 0xffff_ffff_ffff_ffff {
          assert StreamAcceptable(pack, envelope, archive, k);
        }
      } else if forall k :: 0 <= k < n ==> sizes[k] != 0xffff_ffff_ffff_ffff {
        forall k | 0 <= k < n && SectionStart(pack, envelope) + SizesBefore(sizes, n) <= envelope.nextHeaderOffset
          && SectionStart(pack, envelope) + SizesBefore(sizes, n) <= |archive|
          ensures StreamAcceptable(pack, envelope, archive, k) {
          SumMonotone(sizes, k + 1, n);
        }
      }
    }
  }

  lemma {:induction false} SumFrom(streams: seq<PackStream>, pack: RawPackInfo, envelope: Envelope, archive: Bytes,
                                   k: nat)
    requires PackStreamsOk(streams, pack, envelope, archive) && PackAcceptable(pack, envelope, archive) && k < |streams|
    ensures
      var last := |streams| - 1;
      streams[last].offset + pack.sizes.value[last] == streams[k].offset + Sum(pack.sizes.value[k..])
    decreases |streams| - k
  {
    hide PackAcceptable, PackStreamOf;
    StreamFields(streams, pack, envelope, archive, k);
    assert pack.sizes.value[k..][1..] == pack.sizes.value[k + 1..];
    if k + 1 < |streams| {
      SumFrom(streams, pack, envelope, archive, k + 1);
    }
  }

  /** Where a section's packed bytes begin and end, as the section itself records it. */
  lemma SectionPlace(info: StreamsInfo, raw: RawStreamsInfo, envelope: Envelope, archive: Bytes, tables: Tables,
                     limits: Limits)
    requires StreamsOk(info, raw, envelope, archive, tables)
    requires SectionAcceptable(raw, envelope, archive, tables, limits)
    requires |info.packStreams| > 0
    ensures raw.pack.Some? && raw.pack.value.sizes.Some? && info.packPosition == raw.pack.value.position
    ensures info.packStreams[0].offset == envelope.signatureOffset + 32 + info.packPosition
    ensures
      var last := info.packStreams[|info.packStreams| - 1];
      && last.size.Some?
      && last.offset + last.size.value
           == envelope.signatureOffset + 32 + info.packPosition + Sum(raw.pack.value.sizes.value)
  {
    hide PackStreamsOk, PackAcceptable, FoldersOk, UnpackAcceptable;
    var pack := raw.pack.value;
    PackSizesGiven(info.packStreams, pack, envelope, archive);
    PackStreamsCounted(info.packStreams, pack, envelope, archive);
    OneSizeEach(pack, envelope, archive);
    FirstStream(info.packStreams, pack, envelope, archive);
    StreamFields(info.packStreams, pack, envelope, archive, |info.packStreams| - 1);
    SumFrom(info.packStreams, pack, envelope, archive, 0);
    assert pack.sizes.value[0..] == pack.sizes.value;
  }

  lemma OneSizeEach(pack: RawPackInfo, envelope: Envelope, archive: Bytes)
    requires PackAcceptable(pack, envelope, archive)
    ensures pack.sizes.Some? && |pack.sizes.value| == pack.streams
  {
  }

  // ----- Folders.

  /** Coder j has its record's ports, counted on from the coder before it, and its properties. */
  lemma CoderFields(info: StreamsInfo, raw: RawStreamsInfo, envelope: Envelope, archive: Bytes, tables: Tables,
                    i: nat, j: nat)
    requires StreamsOk(info, raw, envelope, archive, tables) && i < |info.folders| && j < |info.folders[i].coders|
    ensures raw.unpack.Some? && i < |raw.unpack.value.folders| && j < |raw.unpack.value.folders[i].coders|
    ensures
      var c, r := info.folders[i].coders[j], raw.unpack.value.folders[i].coders[j];
      && c.kind == tables.kindOf(r.methodId) && c.properties == r.properties
      && c.inputCount == r.inputs && c.outputCount == r.outputs
    ensures
      var coders := info.folders[i].coders;
      if j == 0 then coders[j].inputStart == coders[j].outputStart == 0
      else
        && coders[j].inputStart == coders[j - 1].inputStart + coders[j - 1].inputCount
        && coders[j].outputStart == coders[j - 1].outputStart + coders[j - 1].outputCount
  {
    hide PackStreamsOk, DividedOk, CountsOf, PackedBefore, ValidFolder, ValidGraph, Before;
    var r := raw.unpack.value.folders[i];
    assert info.folders[i].coders == CodersOf(r.coders, tables.kindOf);
    CoderStarts(r.coders, tables, j);
  }

  lemma CoderStarts(coders: seq<RawCoder>, tables: Tables, j: nat)
    requires j < |coders|
    ensures CodersOf(coders, tables.kindOf)[j] == CoderOf(coders, tables.kindOf, j)
    ensures
      var list := CodersOf(coders, tables.kindOf);
      if j == 0 then list[j].inputStart == list[j].outputStart == 0
      else
        && list[j].inputStart == list[j - 1].inputStart + list[j - 1].inputCount
        && list[j].outputStart == list[j - 1].outputStart + list[j - 1].outputCount
  {
  }

  /** Folder i has its record's bindings, packed inputs and sizes (all ones meaning unknown),
      and its own CRC. */
  lemma FolderFields(info: StreamsInfo, raw: RawStreamsInfo, envelope: Envelope, archive: Bytes, tables: Tables,
                     limits: Limits, i: nat)
    requires StreamsOk(info, raw, envelope, archive, tables)
    requires SectionAcceptable(raw, envelope, archive, tables, limits)
    requires i < |info.folders|
    ensures raw.unpack.Some? && |info.folders| == |raw.unpack.value.folders|
    ensures
      var f, r := info.folders[i], raw.unpack.value.folders[i];
      && |f.coders| == |r.coders| && f.bindPairs == r.bindPairs
      && (r.packedIndices.Some? ==> f.packedInputs == r.packedIndices.value)
      && |f.unpackSizes| == |r.unpackSizes|
      && (forall k :: 0 <= k < |f.unpackSizes| ==>
            f.unpackSizes[k] == if r.unpackSizes[k] == 0xffff_ffff_ffff_ffff then None else Some(r.unpackSizes[k]))
    ensures
      var crcs := raw.unpack.value.crcs;
      info.folders[i].crc == if crcs.None? then None else crcs.value[i]
  {
    hide PackStreamsOk, PackAcceptable, DividedOk, CountsOf, PackedBefore, ValidFolder, BindsOk, RootOk, PackedOk,
         CodersOf;
    hide FolderAcceptable, DivisionAcceptable, DictionaryTotal;
  }

  // ----- Substreams.

  /** The digests the folders' substreams take from the list: all but that of a lone
      substream whose folder has a CRC. */
  function DigestsTaken(folders: seq<Folder>, n: nat): seq<Option<bv32>>
    requires n <= |folders|
  {
    if n == 0 then [] else DigestsTaken(folders, n - 1) + DigestsOfOne(folders[n - 1])
  }

  /** The sizes they take from the list: all but the last of each folder. */
  function SizesTaken(folders: seq<Folder>, n: nat): seq<Option<u64>>
    requires n <= |folders|
  {
    if n == 0 then [] else SizesTaken(folders, n - 1) + SizesOfOne(folders[n - 1])
  }

  /** A prefix of the list, grown by the values that follow it. */
  predicate TakenFrom<T(==)>(taken: seq<T>, list: seq<T>) {
    taken != [] ==> |taken| <= |list| && taken == list[..|taken|]
  }

  lemma MoreTaken<T>(taken: seq<T>, more: seq<T>, list: seq<T>)
    requires TakenFrom(taken, list)
    requires |more| > 0 ==> |taken| + |more| <= |list| && forall j :: 0 <= j < |more| ==> more[j] == list[|taken| + j]
    ensures TakenFrom(taken + more, list)
  {
  }

  function DigestsOfOne(f: Folder): seq<Option<bv32>> {
    if |f.substreams| == 1 && f.crc.Some? then []
    else seq(|f.substreams|, i requires 0 <= i < |f.substreams| => f.substreams[i].crc)
  }

  function SizesOfOne(f: Folder): seq<Option<u64>> {
    if |f.substreams| == 0 then []
    else seq(|f.substreams| - 1, i requires 0 <= i < |f.substreams| - 1 => f.substreams[i].size)
  }

  /** A folder's substreams, with the section's vectors and cursors. */
  lemma FolderParts(info: StreamsInfo, raw: RawStreamsInfo, envelope: Envelope, archive: Bytes, tables: Tables, i: nat)
    requires StreamsOk(info, raw, envelope, archive, tables) && i < |info.folders|
    ensures raw.unpack.Some? && |info.folders| == |raw.unpack.value.folders|
    ensures
      var unpack, counts := raw.unpack.value, CountsOf(raw.substreams, |raw.unpack.value.folders|);
      && |counts| == |info.folders| && info.folders[i].crc == CrcFor(unpack.crcs, i)
      && |info.folders[i].substreams| == counts[i] && DividedOk(info.folders[i], raw.substreams, counts, unpack.crcs, i)
  {
    hide PackStreamsOk, ValidFolder, ValidGraph, CodersOf, PackedBefore, CountsOf, SizesOk, TotalBefore;
  }

  lemma {:induction false} DigestsUpTo(info: StreamsInfo, raw: RawStreamsInfo, envelope: Envelope, archive: Bytes,
                                       tables: Tables,
                                       n: nat)
    requires StreamsOk(info, raw, envelope, archive, tables) && n <= |info.folders|
    requires raw.substreams.Some? && raw.substreams.value.crcs.Some? && raw.unpack.Some?
    ensures |CountsOf(raw.substreams, |raw.unpack.value.folders|)| >= n
    ensures
      var counts := CountsOf(raw.substreams, |raw.unpack.value.folders|);
      var taken, list := DigestsTaken(info.folders, n), raw.substreams.value.crcs.value;
      && |taken| == DigestsBefore(counts, raw.unpack.value.crcs, n)
      && TakenFrom(taken, list)
    decreases n
  {
    hide StreamsOk, CountsOf, TakenFrom, DigestsOfOne, DividedOk;
    NothingTaken(raw.substreams.value.crcs.value);
    if n > 0 {
      DigestsUpTo(info, raw, envelope, archive, tables, n - 1);
      FolderParts(info, raw, envelope, archive, tables, n - 1);
      DigestsOfFolder(info.folders[n - 1], raw.substreams, CountsOf(raw.substreams, |raw.unpack.value.folders|),
                      raw.unpack.value.crcs, n - 1);
      MoreTaken(DigestsTaken(info.folders, n - 1), DigestsOfOne(info.folders[n - 1]), raw.substreams.value.crcs.value);
    }
  }

  lemma NothingTaken<T>(list: seq<T>)
    ensures TakenFrom([], list)
  {
  }

  lemma DigestsOfFolder(f: Folder, substreams: Option<RawSubstreams>, counts: seq<u64>,
                        folderCrcs: Option<seq<Option<bv32>>>, i: nat)
    requires i < |counts| && DividedOk(f, substreams, counts, folderCrcs, i) && |f.substreams| == counts[i]
    requires substreams.Some? && substreams.value.crcs.Some? && f.crc == CrcFor(folderCrcs, i)
    ensures DigestsBefore(counts, folderCrcs, i + 1) == DigestsBefore(counts, folderCrcs, i) + |DigestsOfOne(f)|
    ensures
      var start, more, list := DigestsBefore(counts, folderCrcs, i), DigestsOfOne(f), substreams.value.crcs.value;
      |more| > 0 ==> start + |more| <= |list| && forall j :: 0 <= j < |more| ==> more[j] == list[start + j]
  {
    hide SizesOk;
  }

  /** Folder by folder, the substreams' digests are the parsed list, used to its end. */
  lemma DigestsInTurn(info: StreamsInfo, raw: RawStreamsInfo, envelope: Envelope, archive: Bytes, tables: Tables,
                      limits: Limits)
    requires StreamsOk(info, raw, envelope, archive, tables)
    requires SectionAcceptable(raw, envelope, archive, tables, limits)
    requires raw.substreams.Some? && raw.substreams.value.crcs.Some?
    ensures DigestsTaken(info.folders, |info.folders|) == raw.substreams.value.crcs.value
  {
    hide StreamsOk, PackAcceptable, FoldersAcceptable, PartAcceptable, CountsOf;
    HasFolders(info, raw, envelope, archive, tables);
    DigestsUpTo(info, raw, envelope, archive, tables, |info.folders|);
  }

  lemma HasFolders(info: StreamsInfo, raw: RawStreamsInfo, envelope: Envelope, archive: Bytes, tables: Tables)
    requires StreamsOk(info, raw, envelope, archive, tables) && raw.substreams.Some?
    ensures raw.unpack.Some? && |info.folders| == |raw.unpack.value.folders|
    ensures |CountsOf(raw.substreams, |raw.unpack.value.folders|)| == |info.folders|
  {
    hide PackStreamsOk, DraftOf, DividedOk, PackedBefore, CountsOf;
  }

  /** Without a list no substream has a digest, unless it is alone and its folder has one. */
  lemma DigestsAbsent(info: StreamsInfo, raw: RawStreamsInfo, envelope: Envelope, archive: Bytes, tables: Tables,
                      i: nat, j: nat)
    requires StreamsOk(info, raw, envelope, archive, tables) && i < |info.folders| && j < |info.folders[i].substreams|
    ensures
      var f := info.folders[i];
      && (|f.substreams| == 1 && f.crc.Some? ==> f.substreams[j].crc == f.crc)
      && ((raw.substreams.None? || raw.substreams.value.crcs.None?) && !(|f.substreams| == 1 && f.crc.Some?) ==>
            f.substreams[j].crc == None)
  {
    hide StreamsOk, CountsOf, SizesOk;
    FolderParts(info, raw, envelope, archive, tables, i);
  }

  function Declared(sizes: seq<u64>): (declared: seq<Option<u64>>)
    ensures |declared| == |sizes|
  {
    seq(|sizes|, i requires 0 <= i < |sizes| => if sizes[i] == 0xffff_ffff_ffff_ffff then None else Some(sizes[i]))
  }

  lemma {:induction false} SizesUpTo(info: StreamsInfo, raw: RawStreamsInfo, envelope: Envelope, archive: Bytes,
                                     tables: Tables,
                                     n: nat)
    requires StreamsOk(info, raw, envelope, archive, tables) && n <= |info.folders|
    requires raw.substreams.Some? && raw.substreams.value.explicitSizes.Some? && raw.unpack.Some?
    ensures |CountsOf(raw.substreams, |raw.unpack.value.folders|)| >= n
    ensures
      var counts := CountsOf(raw.substreams, |raw.unpack.value.folders|);
      var taken, list := SizesTaken(info.folders, n), Declared(raw.substreams.value.explicitSizes.value);
      && |taken| == ExplicitBefore(counts, n)
      && TakenFrom(taken, list)
    decreases n
  {
    hide StreamsOk, CountsOf, Declared, TakenFrom, SizesOfOne, DividedOk;
    NothingTaken(Declared(raw.substreams.value.explicitSizes.value));
    if n > 0 {
      SizesUpTo(info, raw, envelope, archive, tables, n - 1);
      FolderParts(info, raw, envelope, archive, tables, n - 1);
      SizesOfFolder(info.folders[n - 1], raw.substreams, CountsOf(raw.substreams, |raw.unpack.value.folders|),
                    raw.unpack.value.crcs, n - 1);
      MoreTaken(SizesTaken(info.folders, n - 1), SizesOfOne(info.folders[n - 1]),
                Declared(raw.substreams.value.explicitSizes.value));
    }
  }

  lemma SizesOfFolder(f: Folder, substreams: Option<RawSubstreams>, counts: seq<u64>,
                      folderCrcs: Option<seq<Option<bv32>>>, i: nat)
    requires i < |counts| && DividedOk(f, substreams, counts, folderCrcs, i) && |f.substreams| == counts[i]
    requires substreams.Some? && substreams.value.explicitSizes.Some?
    ensures ExplicitBefore(counts, i + 1) == ExplicitBefore(counts, i) + |SizesOfOne(f)|
    ensures
      var start, more := ExplicitBefore(counts, i), SizesOfOne(f);
      var list := Declared(substreams.value.explicitSizes.value);
      |more| > 0 ==> start + |more| <= |list| && forall j :: 0 <= j < |more| ==> more[j] == list[start + j]
  {
    hide EnoughCrcs, SubstreamCrc, FinalSize;
    var count, explicit, start := counts[i], ExplicitSizes(substreams), SizeCursor(substreams, counts, i);
    var sizes := seq(count, k requires 0 <= k < count => f.substreams[k].size);
    assert SizesOk(sizes, RootSize(f), count, explicit, start);
    forall j | 0 <= j < |f.substreams| - 1 ensures f.substreams[j].size == Declared(explicit.value)[start + j] {
      assert sizes[..count - 1][j] == sizes[j] == f.substreams[j].size;
      assert GivenSizes(count, explicit, start)[j] == OptionalSize(explicit.value[start + j]);
    }
  }

  /** Folder by folder, all sizes but the last are the parsed list, used to its end. */
  lemma SizesInTurn(info: StreamsInfo, raw: RawStreamsInfo, envelope: Envelope, archive: Bytes, tables: Tables,
                    limits: Limits)
    requires StreamsOk(info, raw, envelope, archive, tables)
    requires SectionAcceptable(raw, envelope, archive, tables, limits)
    requires raw.substreams.Some? && raw.substreams.value.explicitSizes.Some?
    ensures SizesTaken(info.folders, |info.folders|) == Declared(raw.substreams.value.explicitSizes.value)
  {
    hide StreamsOk, PackAcceptable, FoldersAcceptable, PartAcceptable, CountsOf, Declared;
    HasFolders(info, raw, envelope, archive, tables);
    SizesUpTo(info, raw, envelope, archive, tables, |info.folders|);
  }

  /** A lone substream is the whole folder. */
  lemma LoneSize(info: StreamsInfo, raw: RawStreamsInfo, envelope: Envelope, archive: Bytes, tables: Tables, i: nat)
    requires StreamsOk(info, raw, envelope, archive, tables) && i < |info.folders| && |info.folders[i].substreams| == 1
    ensures info.folders[i].substreams[0].size == RootSize(info.folders[i])
  {
    hide StreamsOk, CountsOf, SubstreamCrc, EnoughCrcs;
    FolderParts(info, raw, envelope, archive, tables, i);
    var f := info.folders[i];
    var counts := CountsOf(raw.substreams, |raw.unpack.value.folders|);
    var sizes := seq(counts[i], k requires 0 <= k < counts[i] => f.substreams[k].size);
    assert SizesOk(sizes, RootSize(f), 1, ExplicitSizes(raw.substreams), SizeCursor(raw.substreams, counts, i));
  }

  /** Without counts every folder has one substream; otherwise as many as its count says. */
  lemma CountsInTurn(info: StreamsInfo, raw: RawStreamsInfo, envelope: Envelope, archive: Bytes, tables: Tables, i: nat)
    requires StreamsOk(info, raw, envelope, archive, tables) && i < |info.folders|
    ensures raw.substreams.Some? && |raw.substreams.value.counts| > 0 ==> i < |raw.substreams.value.counts|
    ensures |info.folders[i].substreams|
      == if raw.substreams.Some? && |raw.substreams.value.counts| > 0 then raw.substreams.value.counts[i] else 1
  {
    hide StreamsOk, DividedOk;
    FolderParts(info, raw, envelope, archive, tables, i);
  }

  lemma {:induction false} OnesBefore(n: nat, k: nat)
    requires k <= n
    ensures TotalBefore(Ones(n), k) == k
    decreases k
  {
    if k > 0 {
      OnesBefore(n, k - 1);
    }
  }

  /** An accepted section has no more substreams than allowed; without counts, no more folders. */
  lemma SubstreamsLimited(raw: RawStreamsInfo, envelope: Envelope, archive: Bytes, tables: Tables, limits: Limits)
    requires SectionAcceptable(raw, envelope, archive, tables, limits) && raw.unpack.Some?
    ensures raw.substreams.Some? && |raw.substreams.value.counts| > 0 ==>
      |raw.substreams.value.counts| == |raw.unpack.value.folders|
      && Sum(raw.substreams.value.counts) <= limits.maxSubstreams
    ensures raw.substreams.None? ==> |raw.unpack.value.folders| <= limits.maxSubstreams
  {
    hide PackAcceptable, FoldersAcceptable, PartAcceptable, CursorsAtEnd, DeclaredRoot, Sum, TotalBefore;
    var n := |raw.unpack.value.folders|;
    if raw.substreams.Some? {
      var counts := raw.substreams.value.counts;
      TotalIsSum(counts, |counts|);
      assert counts[..|counts|] == counts;
    } else {
      OnesBefore(n, n);
    }
  }
}
