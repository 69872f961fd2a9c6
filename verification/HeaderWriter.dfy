/** The header the seed builder writes around a folder, and the round trip through
    the parser of next headers. */
module HeaderWriter {
  import opened Support
  import opened Sequences
  import opened Bounded
  import opened Model
  import opened Reading
  import opened FolderSyntax
  import opened SubstreamSyntax
  import opened StreamSyntax
  import opened HeaderSyntax
  import opened FolderWriter
  import opened VectorWriter
  import opened StreamWriter

  /** What the builder is given, as far as the header shows it. */
  datatype Seed = Seed(
    packSizes: seq<u64>,
    coders: seq<SeedCoder>,
    bindings: seq<BindPair>,
    packed: seq<u64>,
    unpackSizes: seq<u64>,
    crc: Option<u32>)

  predicate Small(sizes: seq<u64>) {
    forall i :: 0 <= i < |sizes| ==> sizes[i] < 0x80
  }

  predicate SeedWritable(s: Seed) {
    && Writable(s.coders, s.bindings, s.packed)
    && |s.packSizes| == |s.packed| && |s.unpackSizes| == OutputSum(s.coders)
    && Small(s.packSizes) && Small(s.unpackSizes)
  }

  // ----- The records.

  function PackRecord(sizes: seq<u64>): Bytes
    requires |sizes| <= U64_MAX
  {
    PackText(IntendedPack(sizes))
  }

  function CrcRecord(crc: Option<u32>): Bytes {
    if crc.Some? then [ID_CRC] + ([1] + (LowBytes(crc.value, 4) + [ID_END])) else [ID_END]
  }

  function UnpackTailRecord(s: Seed): Bytes {
    [ID_CODERS_UNPACK_SIZE] + (UintRecords(s.unpackSizes) + CrcRecord(s.crc))
  }

  function UnpackRecord(s: Seed): Bytes
    requires SeedWritable(s)
  {
    [ID_FOLDER] + (EncodeUint(1) + ([0] + (FolderRecord(s.coders, s.bindings, s.packed) + UnpackTailRecord(s))))
  }

  function StreamsRecord(s: Seed): Bytes
    requires SeedWritable(s)
  {
    [ID_PACK_INFO] + (PackRecord(s.packSizes) + ([ID_UNPACK_INFO] + (UnpackRecord(s) + [ID_END])))
  }

  function FilesRecord(): Bytes {
    [ID_FILES_INFO] + (EncodeUint(1) + [ID_END, ID_END])
  }

  function HeaderRecord(s: Seed): Bytes
    requires SeedWritable(s)
  {
    [ID_HEADER] + ([ID_MAIN_STREAMS_INFO] + (StreamsRecord(s) + FilesRecord()))
  }

  // ----- What they stand for.

  function IntendedPack(sizes: seq<u64>): RawPackInfo
    requires |sizes| <= U64_MAX
  {
    RawPackInfo(0, |sizes|, Some(sizes), None)
  }

  function IntendedCrcs(crc: Option<u32>): Option<seq<Option<bv32>>> {
    if crc.Some? then Some([Some(DigestWord(crc.value))]) else None
  }

  function IntendedUnpack(s: Seed): RawUnpackInfo
    requires SeedWritable(s)
  {
    RawUnpackInfo([Intended(s.coders, s.bindings, s.packed).(unpackSizes := s.unpackSizes)], IntendedCrcs(s.crc))
  }

  function IntendedStreams(s: Seed): RawStreamsInfo
    requires SeedWritable(s)
  {
    RawStreamsInfo(Some(IntendedPack(s.packSizes)), Some(IntendedUnpack(s)), None)
  }

  /** One file, with nothing known about it. */
  function IntendedHeader(s: Seed): RawNextHeader
    requires SeedWritable(s)
  {
    Header(RawHeader([], None, Some(IntendedStreams(s)), Some(RawFilesInfo(1, []))))
  }

  /** Limits that let the header through. */
  predicate LimitsAllow(s: Seed, limits: Limits) {
    && WithinLimits(s.coders, limits, 0, 0)
    && |s.packSizes| <= limits.maxTotalStreams
    && limits.maxFolders > 0 && limits.maxSubstreams > 0 && limits.maxFiles > 0 && limits.maxRecursionDepth > 0
  }

  // ----- Reading them back.

  lemma DigestRoundTrip(bytes: Bytes, p: nat, crc: u32)
    requires p <= |bytes| && At(bytes, p, LowBytes(crc, 4))
    ensures U32At(bytes, p) == Success(Parsed(crc, p + 4))
  {
    hide LowBytes;
    AtBounds(bytes, p, LowBytes(crc, 4));
    LittleEndianOfLowBytes(bytes, p, crc, 4);
    Powers();
  }

  lemma OneDigest(bytes: Bytes, p: nat, crc: u32)
    requires p <= |bytes| && U32At(bytes, p) == Success(Parsed(crc, p + 4))
    ensures DigestsFrom(bytes, p, seq(1, _ => true), 1) == Success(Parsed([Some(DigestWord(crc))], p + 4))
  {
    hide U32At, DigestWord;
    var none: seq<Option<bv32>> := [];
    assert none + [Some(DigestWord(crc))] == [Some(DigestWord(crc))];
  }

  lemma CrcsRoundTrip(bytes: Bytes, p: nat, crc: Option<u32>)
    requires At(bytes, p, CrcRecord(crc))
    ensures
      var id := U8At(bytes, p);
      id.Success? && CrcsAt(bytes, id.value.end, id.value.value, 1)
        == Success(Parsed(Section(IntendedCrcs(crc), ID_END), p + |CrcRecord(crc)|))
  {
    hide LowBytes, DigestWord, DigestsFrom, U32At;
    if crc.None? {
      AtOne(bytes, p, ID_END);
    } else {
      var word := LowBytes(crc.value, 4);
      FirstByte(bytes, p, ID_CRC, [1] + (word + [ID_END]));
      FirstByte(bytes, p + 1, 1, word + [ID_END]);
      AtConcat(bytes, p + 2, word, [ID_END]);
      AtOne(bytes, p + 6, ID_END);
      DigestRoundTrip(bytes, p + 2, crc.value);
      OneDigest(bytes, p + 2, crc.value);
    }
  }

  lemma OneSizedFolder(bytes: Bytes, p: nat, f: RawFolder, sizes: seq<u64>, end: nat)
    requires p <= |bytes| && FoldersCounted([f]) && |sizes| == f.outputStreams
    requires UintsAt(bytes, p, |sizes|) == Success(Parsed(sizes, end))
    ensures SizedFoldersAt(bytes, p, [f], 1) == Success(Parsed([f.(unpackSizes := sizes)], end))
  {
    hide UintsAt, FolderCounted;
    var none: seq<RawFolder> := [];
    assert none + [f.(unpackSizes := sizes)] == [f.(unpackSizes := sizes)];
  }

  lemma TailRoundTrip(bytes: Bytes, p: nat, s: Seed, f: RawFolder)
    requires p <= |bytes| && FoldersCounted([f]) && |s.unpackSizes| == f.outputStreams
      && At(bytes, p, UnpackTailRecord(s))
    ensures UnpackTailAt(bytes, p, [f]) == Success(Parsed(
      RawUnpackInfo([f.(unpackSizes := s.unpackSizes)], IntendedCrcs(s.crc)), p + |UnpackTailRecord(s)|))
  {
    hide UintRecords, UintsAt, CrcRecord, IntendedCrcs, FoldersCounted, CrcsAt, SizedFoldersAt;
    var sizes := UintRecords(s.unpackSizes);
    FirstByte(bytes, p, ID_CODERS_UNPACK_SIZE, sizes + CrcRecord(s.crc));
    AtConcat(bytes, p + 1, sizes, CrcRecord(s.crc));
    UintsRoundTrip(bytes, p + 1, s.unpackSizes);
    OneSizedFolder(bytes, p + 1, f, s.unpackSizes, p + 1 + |sizes|);
    CrcsRoundTrip(bytes, p + 1 + |sizes|, s.crc);
  }

  lemma OneFolder(bytes: Bytes, p: nat, limits: Limits, totals: Totals, f: FolderRun, end: nat)
    requires p <= |bytes| && FolderAt(bytes, p, limits, totals.coders, totals.streams) == Success(Parsed(f, end))
    ensures FoldersAt(bytes, p, 1, limits, totals)
         == Success(Parsed(Run([f.folder], totals.(coders := f.coders, streams := f.streams)), end))
    ensures FoldersCounted([f.folder])
  {
    hide FolderAt;
    var none: seq<RawFolder> := [];
    assert none + [f.folder] == [f.folder];
    ParsedFolderCounted(bytes, p, limits, totals.coders, totals.streams);
  }

  /** The totals once the folder has been read. */
  function FolderTotals(s: Seed, totals: Totals): Totals {
    totals.(folders := 1, coders := |s.coders|, streams := InputSum(s.coders) + OutputSum(s.coders))
  }

  /** Where the parser finds the folder record, and the record after it. */
  lemma UnpackParts(bytes: Bytes, p: nat, s: Seed) returns (q: nat)
    requires p <= |bytes| && SeedWritable(s) && At(bytes, p, UnpackRecord(s))
    ensures U8At(bytes, p) == Success(Parsed(ID_FOLDER, p + 1)) && UintAt(bytes, p + 1) == Success(Parsed(1, q))
    ensures q < |bytes| && U8At(bytes, q) == Success(Parsed(0, q + 1))
    ensures
      var folder := FolderRecord(s.coders, s.bindings, s.packed);
      && At(bytes, q + 1, folder) && At(bytes, q + 1 + |folder|, UnpackTailRecord(s))
      && q + 1 + |folder| + |UnpackTailRecord(s)| == p + |UnpackRecord(s)| <= |bytes|
  {
    hide EncodeUint, UintAt, FolderRecord, UnpackTailRecord, Writable, Small;
    var folder, tail := FolderRecord(s.coders, s.bindings, s.packed), UnpackTailRecord(s);
    FirstByte(bytes, p, ID_FOLDER, EncodeUint(1) + ([0] + (folder + tail)));
    LeadingUint(bytes, p + 1, 1, [0] + (folder + tail));
    q := p + 1 + |EncodeUint(1)|;
    FirstByte(bytes, q, 0, folder + tail);
    AtConcat(bytes, q + 1, folder, tail);
  }

  lemma UnpackRoundTrip(bytes: Bytes, p: nat, s: Seed, limits: Limits, totals: Totals,
                        external: Option<ExternalFolderData>)
    requires p <= |bytes| && SeedWritable(s) && LimitsAllow(s, limits) && At(bytes, p, UnpackRecord(s))
    requires totals.folders == totals.coders == totals.streams == 0
    ensures UnpackInfoAt(bytes, p, limits, totals, external) ==
      if PortsNonzero(s.coders) then
        Success(Parsed(Run(CompleteUnpack(IntendedUnpack(s)), FolderTotals(s, totals)), p + |UnpackRecord(s)|))
      else Failure(Format(ZeroStreamCount))
  {
    hide UintAt, FolderRecord, UnpackTailRecord, UnpackRecord, FolderAt, FoldersAt, UnpackTailAt, FoldersCounted,
         Writable;
    hide WithinLimits, Small, IntendedCrcs, Readable, PortsNonzero;
    var q := UnpackParts(bytes, p, s);
    var folder := FolderRecord(s.coders, s.bindings, s.packed);
    var counted := totals.(folders := 1);
    FolderRoundTrip(bytes, q + 1, s.coders, s.bindings, s.packed, limits, 0, 0);
    NoFolders(bytes, q + 1, limits, counted);
    if PortsNonzero(s.coders) {
      var run := FolderRun(Intended(s.coders, s.bindings, s.packed), |s.coders|,
                           InputSum(s.coders) + OutputSum(s.coders));
      OneFolder(bytes, q + 1, limits, counted, run, q + 1 + |folder|);
      TailRoundTrip(bytes, q + 1 + |folder|, s, run.folder);
    }
  }

  lemma NoFolders(bytes: Bytes, p: nat, limits: Limits, totals: Totals)
    requires p <= |bytes|
    ensures
      var folder := FolderAt(bytes, p, limits, totals.coders, totals.streams);
      folder.Failure? ==> FoldersAt(bytes, p, 1, limits, totals) == Failure(folder.error)
  {
    hide FolderAt;
    assert FoldersAt(bytes, p, 0, limits, totals) == Success(Parsed(Run([], totals), p));
  }

  lemma PackStageRoundTrip(bytes: Bytes, p: nat, sizes: seq<u64>, limits: Limits, id: u8, rest: Bytes)
    requires 0 < |sizes| <= U64_MAX && |sizes| <= limits.maxTotalStreams
    requires At(bytes, p, [ID_PACK_INFO] + (PackRecord(sizes) + ([id] + rest)))
    ensures p <= |bytes|
    ensures PackStageAt(bytes, p, limits, NO_TOTALS) == Success(Parsed(
      Run(Section(Some(IntendedPack(sizes)), id), NO_TOTALS.(packed := |sizes|)), p + |PackRecord(sizes)| + 2))
    ensures At(bytes, p + |PackRecord(sizes)| + 2, rest)
  {
    hide PackText, PackStageAt, At;
    var pack := PackRecord(sizes);
    AtConcat(bytes, p, [ID_PACK_INFO], pack + ([id] + rest));
    AtConcat(bytes, p + 1, pack, [id] + rest);
    AtConcat(bytes, p, [ID_PACK_INFO], pack);
    FirstByte(bytes, p + 1 + |pack|, id, rest);
    PackPartReads(bytes, p, Some(IntendedPack(sizes)), limits, NO_TOTALS);
  }

  lemma RestRoundTrip(bytes: Bytes, p: nat, s: Seed, limits: Limits, totals: Totals,
                      external: Option<ExternalFolderData>)
    requires p <= |bytes| && SeedWritable(s) && LimitsAllow(s, limits) && At(bytes, p, UnpackRecord(s) + [ID_END])
    requires totals == NO_TOTALS.(packed := |s.packSizes|) && PackCounted(IntendedPack(s.packSizes))
    ensures
      var found := RestAt(bytes, p, Some(IntendedPack(s.packSizes)), ID_UNPACK_INFO, limits, totals, external);
      if PortsNonzero(s.coders) then
        && found.Success? && found.value.value.value == Complete(IntendedStreams(s))
           && found.value.end == p + |UnpackRecord(s)| + 1
        && found.value.value.totals.properties == 0
      else found == Failure(Format(ZeroStreamCount))
  {
    hide UnpackRecord, UnpackInfoAt, EndAt, IntendedPack, IntendedUnpack, IntendedStreams, FolderTotals, WithinLimits,
         Small;
    hide PackCounted, UnpackCounted, PortsNonzero;
    var end := p + |UnpackRecord(s)|;
    AtConcat(bytes, p, UnpackRecord(s), [ID_END]);
    AtOne(bytes, end, ID_END);
    UnpackRoundTrip(bytes, p, s, limits, totals, external);
    if PortsNonzero(s.coders) {
      LastRoundTrip(bytes, end, s, limits, totals);
    }
  }

  lemma StreamsRoundTrip(bytes: Bytes, p: nat, s: Seed, limits: Limits, external: Option<ExternalFolderData>)
    requires p <= |bytes| && SeedWritable(s) && LimitsAllow(s, limits) && At(bytes, p, StreamsRecord(s))
    ensures
      var found := StreamsInfoAt(bytes, p, limits, NO_TOTALS, external);
      if PortsNonzero(s.coders) then
        && found.Success? && found.value.value.value == Complete(IntendedStreams(s))
           && found.value.end == p + |StreamsRecord(s)|
        && found.value.value.totals.properties == 0
      else found == Failure(Format(ZeroStreamCount))
  {
    hide PackRecord, UnpackRecord, PackStageAt, RestAt, IntendedPack, IntendedStreams, WithinLimits, Small, PackCounted;
    hide PortsNonzero;
    var rest := UnpackRecord(s) + [ID_END];
    PackStageRoundTrip(bytes, p, s.packSizes, limits, ID_UNPACK_INFO, rest);
    RestRoundTrip(bytes, p + |PackRecord(s.packSizes)| + 2, s, limits, NO_TOTALS.(packed := |s.packSizes|), external);
  }

  /** No substreams record: the folder has one substream. */
  lemma LastRoundTrip(bytes: Bytes, p: nat, s: Seed, limits: Limits, totals: Totals)
    requires p < |bytes| && bytes[p] == ID_END && SeedWritable(s) && limits.maxSubstreams > 0 && totals.substreams == 0
    requires PackCounted(IntendedPack(s.packSizes)) && UnpackCounted(IntendedUnpack(s))
    ensures
      var pack, unpack := Some(IntendedPack(s.packSizes)), Some(IntendedUnpack(s));
      var found := EndAt(bytes, p + 1, pack, unpack, ID_END, limits, FolderTotals(s, totals));
      && found.Success? && found.value.end == p + 1 && found.value.value.value == Complete(IntendedStreams(s))
      && found.value.value.totals.properties == totals.properties
  {
    hide IntendedPack, PackCounted, UnpackCounted;
  }

  lemma FilesRoundTrip(bytes: Bytes, p: nat, limits: Limits, totals: Totals)
    requires At(bytes, p, FilesRecord()) && limits.maxFiles > 0
    ensures p < |bytes| && bytes[p] == ID_FILES_INFO
    ensures FilesStageAt(bytes, p + 1, ID_FILES_INFO, limits, totals)
         == Success(Parsed(Run(Some(RawFilesInfo(1, [])), totals), p + |FilesRecord()|))
  {
    hide EncodeUint, UintAt;
    FirstByte(bytes, p, ID_FILES_INFO, EncodeUint(1) + [ID_END, ID_END]);
    LeadingUint(bytes, p + 1, 1, [ID_END, ID_END]);
    var q := p + 1 + |EncodeUint(1)|;
    assert [ID_END] + [ID_END] == [ID_END, ID_END];
    FirstByte(bytes, q, ID_END, [ID_END]);
    AtOne(bytes, q + 1, ID_END);
  }

  /** The parser consumes a written header to its last byte and returns what was
      written, whatever external stream it is offered, if and only if every coder has
      inputs and outputs; the builder does not ask for that. */
  lemma HeaderRoundTrip(s: Seed, limits: Limits, external: Option<ExternalFolderData>)
    requires SeedWritable(s) && LimitsAllow(s, limits)
    ensures NextHeaderAt(HeaderRecord(s), limits, external)
         == if PortsNonzero(s.coders) then Success(IntendedHeader(s)) else Failure(Format(ZeroStreamCount))
  {
    hide StreamsRecord, StreamsInfoAt, IntendedStreams, FilesRecord, FilesStageAt, SeedWritable, LimitsAllow,
         FilesInfoAt;
    hide PortsNonzero;
    var bytes := HeaderRecord(s);
    AtWhole(bytes, []);
    assert bytes + [] == bytes;
    var streams, files := StreamsRecord(s), FilesRecord();
    FirstByte(bytes, 0, ID_HEADER, [ID_MAIN_STREAMS_INFO] + (streams + files));
    FirstByte(bytes, 1, ID_MAIN_STREAMS_INFO, streams + files);
    AtConcat(bytes, 2, streams, files);
    StreamsRoundTrip(bytes, 2, s, limits, external);
    LimitsOpen(s, limits);
    if PortsNonzero(s.coders) {
      var found := StreamsInfoAt(bytes, 2, limits, NO_TOTALS, external).value;
      FilesRoundTrip(bytes, 2 + |streams|, limits, found.value.totals);
    }
  }

  /** A second coder that reads a packed stream and writes nothing. */
  const DRAIN: Seed := Seed([1, 1], [SeedCoder([0x21], 1, 1, None), SeedCoder([0x21], 1, 0, None)], [], [0, 1], [1],
                            None)

  /** The builder writes it, and limits that allow it do not help: the parser refuses it. */
  lemma DrainRejected(limits: Limits, external: Option<ExternalFolderData>)
    requires LimitsAllow(DRAIN, limits)
    ensures SeedWritable(DRAIN) && NextHeaderAt(HeaderRecord(DRAIN), limits, external)
      == Failure(Format(ZeroStreamCount))
  {
    hide LimitsAllow, NextHeaderAt;
    DrainWritable();
    HeaderRoundTrip(DRAIN, limits, external);
    assert DRAIN.coders[1] in DRAIN.coders;
  }

  lemma DrainWritable()
    ensures SeedWritable(DRAIN)
  {
    var coders := DRAIN.coders;
    assert coders[..1] == [coders[0]] && [coders[0]][..0] == [];
    assert OutputSum(coders[..1]) == 1 && InputSum(coders[..1]) == 1;
    assert OutputSum(coders) == 1 && InputSum(coders) == 2;
  }

  lemma LimitsOpen(s: Seed, limits: Limits)
    requires LimitsAllow(s, limits)
    ensures limits.maxFiles > 0 && limits.maxRecursionDepth > 0
  {
  }

  // ----- The builder.

  lemma OneWritten()
    ensures EncodeUint(1) == [1]
  {
    hide WrittenExtra;
    Thresholds();
    assert WrittenExtra(1) == 0;
    assert Pow256(0) == 1 && LowBytes(1, 0) == [];
  }

  /** Sizes of one byte each; larger ones are refused. */
  method PushSizes(header: Bytes, sizes: seq<u64>) returns (r: Option<Bytes>)
    ensures r.Some? <==> Small(sizes)
    ensures r.Some? ==> r.value == header + UintRecords(sizes)
  {
    hide EncodeUint;
    var longer := header;
    for i := 0 to |sizes|
      invariant Small(sizes[..i]) && longer == header + UintRecords(sizes[..i])
    {
      if sizes[i] >= 0x80 {
        return None;
      }
      longer := PushUint(longer, sizes[i]);
      assert sizes[..i + 1][..i] == sizes[..i];
    }
    assert sizes[..|sizes|] == sizes;
    return Some(longer);
  }

  method PushPack(header: Bytes, sizes: seq<u64>) returns (r: Option<Bytes>)
    requires |sizes| <= U64_MAX
    ensures r.Some? <==> Small(sizes)
    ensures r.Some? ==> r.value == header + PackRecord(sizes)
  {
    hide EncodeUint, UintRecords, Small;
    var longer := PushUint(header, 0);
    longer := PushUint(longer, |sizes|);
    var sized := PushSizes(longer + [0x09], sizes);
    if sized.None? {
      return None;
    }
    return Some(sized.value + [0x00]);
  }

  method PushTail(header: Bytes, s: Seed) returns (r: Option<Bytes>)
    ensures r.Some? <==> Small(s.unpackSizes)
    ensures r.Some? ==> r.value == header + UnpackTailRecord(s)
  {
    hide UintRecords, LowBytes, Small;
    var sized := PushSizes(header + [0x0c], s.unpackSizes);
    if sized.None? {
      return None;
    }
    var longer := sized.value;
    if s.crc.Some? {
      longer := longer + [0x0a, 1];
      longer := longer + LowBytes(s.crc.value, 4);
    }
    return Some(longer + [0x00]);
  }

  method PushUnpack(header: Bytes, s: Seed) returns (r: Option<Bytes>)
    requires |s.coders| <= U64_MAX && |s.packSizes| == |s.packed| && |s.unpackSizes| == OutputSum(s.coders)
      && Small(s.packSizes)
    ensures r.Some? <==> SeedWritable(s)
    ensures r.Some? ==> r.value == header + UnpackRecord(s)
  {
    hide EncodeUint, Writable, FolderRecord, UnpackTailRecord, Small;
    var longer := PushUint(header + [0x0b], 1);
    var folder := PushFolder(longer + [0], s.coders, s.bindings, s.packed);
    if folder.None? {
      return None;
    }
    var tail := PushTail(folder.value, s);
    if tail.None? {
      return None;
    }
    return Some(tail.value);
  }

  /** The whole header, or nothing when a part cannot be written. */
  method BuildHeader(s: Seed) returns (r: Option<Bytes>)
    requires |s.coders| <= U64_MAX && |s.packSizes| <= U64_MAX
    ensures r.Some? <==> SeedWritable(s)
    ensures r.Some? ==> r.value == HeaderRecord(s)
  {
    hide EncodeUint, Writable, PackRecord, UnpackRecord, Small;
    var totalInputs, totalOutputs := SumPorts(s.coders);
    if |s.packed| != |s.packSizes| || totalOutputs != |s.unpackSizes| {
      return None;
    }
    var pack := PushPack([0x01, 0x04, 0x06], s.packSizes);
    if pack.None? {
      return None;
    }
    var unpack := PushUnpack(pack.value + [0x07], s);
    if unpack.None? {
      return None;
    }
    OneWritten();
    Assembled(s, unpack.value);
    return Some(unpack.value + [0x00, 0x05, 0x01, 0x00, 0x00]);
  }

  lemma Assembled(s: Seed, longer: Bytes)
    requires SeedWritable(s) && |s.packSizes| <= U64_MAX
    requires longer == [0x01, 0x04, 0x06] + PackRecord(s.packSizes) + [0x07] + UnpackRecord(s)
    requires EncodeUint(1) == [1]
    ensures longer + [0x00, 0x05, 0x01, 0x00, 0x00] == HeaderRecord(s)
  {
    hide EncodeUint, PackRecord, UnpackRecord, SeedWritable;
    var pack, unpack := PackRecord(s.packSizes), UnpackRecord(s);
    assert FilesRecord() == [0x05, 0x01, 0x00, 0x00];
    assert HeaderRecord(s) == [0x01, 0x04, 0x06] + pack + [0x07] + unpack + [0x00] + [0x05, 0x01, 0x00, 0x00];
  }
}
