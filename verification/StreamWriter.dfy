/** PackInfo, UnpackInfo, SubStreamsInfo and StreamsInfo as a writer puts them down,
    for any record a parser can return, with the parser reading them back. */
module StreamWriter {
  import opened Support
  import opened Sequences
  import opened Bounded
  import opened Model
  import opened Reading
  import opened FolderSyntax
  import opened SubstreamSyntax
  import opened StreamSyntax
  import opened FolderWriter
  import opened VectorWriter
  import opened Graph

  // ----- Folders.

  function SeedOf(c: RawCoder): SeedCoder {
    SeedCoder(c.methodId, c.inputs, c.outputs, if |c.properties| == 0 then None else Some(c.properties))
  }

  function SeedsOf(coders: seq<RawCoder>): (seeds: seq<SeedCoder>)
    ensures |seeds| == |coders|
  {
    seq(|coders|, i requires 0 <= i < |coders| => SeedOf(coders[i]))
  }

  /** Method identifiers have 1 to 15 bytes, and every coder has inputs and outputs. */
  predicate CoderHeld(c: RawCoder) {
    1 <= |c.methodId| <= 15 && c.inputs > 0 && c.outputs > 0 && |c.properties| <= U64_MAX
  }

  predicate FolderHeld(f: RawFolder) {
    FolderCounted(f) && forall c :: c in f.coders ==> CoderHeld(c)
  }

  /** A lone packed input is not written. */
  function PackedOf(f: RawFolder): seq<u64> {
    if f.packedIndices.Some? then f.packedIndices.value else [0]
  }

  lemma {:induction false} PortSums(coders: seq<RawCoder>, n: nat)
    requires n <= |coders|
    ensures InputSum(SeedsOf(coders)[..n]) == Before(InputCounts(coders), n)
    ensures OutputSum(SeedsOf(coders)[..n]) == Before(OutputCounts(coders), n)
    decreases n
  {
    if n > 0 {
      PortSums(coders, n - 1);
      assert SeedsOf(coders)[..n][..n - 1] == SeedsOf(coders)[..n - 1];
    }
  }

  lemma SeedsAll(coders: seq<RawCoder>)
    ensures RawAll(SeedsOf(coders)) == coders
    ensures InputSum(SeedsOf(coders)) == Before(InputCounts(coders), |coders|)
    ensures OutputSum(SeedsOf(coders)) == Before(OutputCounts(coders), |coders|)
  {
    hide InputSum, OutputSum, Before;
    PortSums(coders, |coders|);
    assert SeedsOf(coders)[..|coders|] == SeedsOf(coders);
  }

  lemma FolderFits(f: RawFolder)
    requires FolderHeld(f)
    ensures Encodable(SeedsOf(f.coders), f.bindPairs, PackedOf(f))
    ensures PortsNonzero(SeedsOf(f.coders))
    ensures Intended(SeedsOf(f.coders), f.bindPairs, PackedOf(f)) == Bare(f)
  {
    hide InputSum, OutputSum, Before, RawAll;
    SeedsAll(f.coders);
    SeedsFit(f.coders);
  }

  lemma SeedsFit(coders: seq<RawCoder>)
    requires forall c :: c in coders ==> CoderHeld(c)
    ensures forall s :: s in SeedsOf(coders) ==> CoderEncodable(s) && HasPorts(s)
  {
    forall s | s in SeedsOf(coders) ensures CoderEncodable(s) && HasPorts(s) {
      var i :| 0 <= i < |coders| && s == SeedOf(coders[i]);
      assert coders[i] in coders;
    }
  }

  /** The folder without its sizes, which stand elsewhere. */
  function Bare(f: RawFolder): RawFolder {
    f.(unpackSizes := [])
  }

  function FolderText(f: RawFolder): Bytes
    requires FolderHeld(f)
  {
    FolderFits(f);
    FolderRecord(SeedsOf(f.coders), f.bindPairs, PackedOf(f))
  }

  // ----- Limits and running totals.

  predicate FolderAllowed(f: RawFolder, limits: Limits) {
    && |f.coders| <= limits.maxCodersPerFolder
    && f.inputStreams + f.outputStreams <= limits.maxStreamsPerFolder
    && forall c :: c in f.coders ==> |c.properties| <= limits.maxCoderPropertyBytes
  }

  predicate Within(t: Totals, limits: Limits) {
    && t.folders <= limits.maxFolders && t.coders <= limits.maxTotalCoders && t.streams <= limits.maxTotalStreams
    && t.packed <= limits.maxTotalStreams && t.substreams <= limits.maxSubstreams
    && t.properties <= limits.maxHeaderProperties
  }

  function AfterFolder(f: RawFolder, t: Totals): Totals {
    t.(coders := t.coders + |f.coders|, streams := t.streams + f.inputStreams + f.outputStreams)
  }

  function AfterFolders(folders: seq<RawFolder>, n: nat, t: Totals): (after: Totals)
    requires n <= |folders|
    ensures after.folders == t.folders && after.packed == t.packed && after.substreams == t.substreams
    ensures after.properties == t.properties && after.coders >= t.coders && after.streams >= t.streams
  {
    if n == 0 then t else AfterFolder(folders[n - 1], AfterFolders(folders, n - 1, t))
  }

  lemma FolderReads(bytes: Bytes, p: nat, f: RawFolder, limits: Limits, t: Totals)
    requires p <= |bytes| && FolderHeld(f) && At(bytes, p, FolderText(f))
    requires FolderAllowed(f, limits) && Within(AfterFolder(f, t), limits)
    ensures
      var after := AfterFolder(f, t);
      FolderAt(bytes, p, limits, t.coders, t.streams)
      == Success(Parsed(FolderRun(Bare(f), after.coders, after.streams), p + |FolderText(f)|))
  {
    hide FolderRecord, FolderAt, At, RawAll, Before, InputSum, OutputSum;
    FolderFits(f);
    SeedsAll(f.coders);
    SeedsReadable(f.coders, limits.maxCoderPropertyBytes);
    FolderRoundTrip(bytes, p, SeedsOf(f.coders), f.bindPairs, PackedOf(f), limits, t.coders, t.streams);
  }

  lemma SeedsReadable(coders: seq<RawCoder>, maximum: nat)
    requires forall c :: c in coders ==> CoderHeld(c) && |c.properties| <= maximum
    ensures Readable(SeedsOf(coders), maximum)
  {
    forall s | s in SeedsOf(coders) ensures CoderEncodable(s) && |RawOf(s).properties| <= maximum {
      var i :| 0 <= i < |coders| && s == SeedOf(coders[i]);
      assert coders[i] in coders;
    }
  }

  // ----- Lists of folders.

  predicate FoldersHeld(folders: seq<RawFolder>) {
    forall i :: 0 <= i < |folders| ==> FolderHeld(folders[i])
  }

  predicate FoldersAllowed(folders: seq<RawFolder>, limits: Limits) {
    forall i :: 0 <= i < |folders| ==> FolderAllowed(folders[i], limits)
  }

  function FoldersText(folders: seq<RawFolder>, n: nat): Bytes
    requires n <= |folders| && FoldersHeld(folders)
  {
    if n == 0 then [] else FoldersText(folders, n - 1) + FolderText(folders[n - 1])
  }

  function BareFolders(folders: seq<RawFolder>, n: nat): (bare: seq<RawFolder>)
    requires n <= |folders|
    ensures |bare| == n
  {
    if n == 0 then [] else BareFolders(folders, n - 1) + [Bare(folders[n - 1])]
  }

  lemma FoldersStep(bytes: Bytes, p: nat, n: nat, limits: Limits, t: Totals, before: Run<seq<RawFolder>>, q: nat,
                    f: FolderRun, end: nat)
    requires p <= |bytes| && FoldersAt(bytes, p, n, limits, t) == Success(Parsed(before, q))
    requires FolderAt(bytes, q, limits, before.totals.coders, before.totals.streams) == Success(Parsed(f, end))
    ensures FoldersAt(bytes, p, n + 1, limits, t) == Success(Parsed(AddFolder(before, f), end))
  {
    hide FolderAt, FoldersCounted;
  }

  lemma NoFolders(bytes: Bytes, p: nat, limits: Limits, t: Totals)
    requires p <= |bytes|
    ensures FoldersAt(bytes, p, 0, limits, t) == Success(Parsed(Run([], t), p))
  {
  }

  lemma {:induction false} FoldersRead(bytes: Bytes, p: nat, folders: seq<RawFolder>, n: nat, limits: Limits, t: Totals)
    requires p <= |bytes| && n <= |folders| && FoldersHeld(folders) && At(bytes, p, FoldersText(folders, n))
    requires FoldersAllowed(folders, limits) && Within(AfterFolders(folders, n, t), limits)
    ensures FoldersAt(bytes, p, n, limits, t)
      == Success(Parsed(Run(BareFolders(folders, n), AfterFolders(folders, n, t)), p + |FoldersText(folders, n)|))
    decreases n
  {
    hide FoldersAt, FolderAt, FolderHeld, FolderAllowed, FolderText, At, Bare;
    AtBounds(bytes, p, FoldersText(folders, n));
    if n == 0 {
      NoFolders(bytes, p, limits, t);
    } else {
      var middle := p + |FoldersText(folders, n - 1)|;
      var before := AfterFolders(folders, n - 1, t);
      AtConcat(bytes, p, FoldersText(folders, n - 1), FolderText(folders[n - 1]));
      FoldersRead(bytes, p, folders, n - 1, limits, t);
      FolderReads(bytes, middle, folders[n - 1], limits, before);
      var run := FolderRun(Bare(folders[n - 1]), AfterFolder(folders[n - 1], before).coders,
                           AfterFolder(folders[n - 1], before).streams);
      FoldersStep(bytes, p, n - 1, limits, t, Run(BareFolders(folders, n - 1), before), middle, run,
                  p + |FoldersText(folders, n)|);
    }
  }

  // ----- Unpack sizes.

  lemma {:induction false} BareAt(folders: seq<RawFolder>, n: nat, i: nat)
    requires i < n <= |folders|
    ensures BareFolders(folders, n)[i] == Bare(folders[i])
    decreases n
  {
    if i < n - 1 {
      BareAt(folders, n - 1, i);
    }
  }

  lemma BareCounted(folders: seq<RawFolder>)
    requires FoldersHeld(folders)
    ensures FoldersCounted(BareFolders(folders, |folders|))
  {
    hide FolderCounted;
    var bare := BareFolders(folders, |folders|);
    forall f | f in bare ensures FolderCounted(f) {
      var i :| 0 <= i < |folders| && f == bare[i];
      BareAt(folders, |folders|, i);
      SizesKeepCounts(folders[i], []);
    }
  }

  function SizesText(folders: seq<RawFolder>, n: nat): Bytes
    requires n <= |folders|
  {
    if n == 0 then [] else SizesText(folders, n - 1) + UintRecords(folders[n - 1].unpackSizes)
  }

  lemma SizesStep(bytes: Bytes, p: nat, bare: seq<RawFolder>, k: nat, before: seq<RawFolder>, q: nat,
                  sizes: seq<u64>, end: nat)
    requires p <= |bytes| && k < |bare| && FoldersCounted(bare)
    requires SizedFoldersAt(bytes, p, bare, k) == Success(Parsed(before, q))
    requires UintsAt(bytes, q, bare[k].outputStreams) == Success(Parsed(sizes, end))
    ensures SizedFoldersAt(bytes, p, bare, k + 1)
      == Success(Parsed(before + [bare[k].(unpackSizes := sizes)], end))
  {
    hide FolderCounted, UintsAt;
  }

  lemma NoSizes(bytes: Bytes, p: nat, bare: seq<RawFolder>)
    requires p <= |bytes| && FoldersCounted(bare)
    ensures SizedFoldersAt(bytes, p, bare, 0) == Success(Parsed([], p))
  {
    hide FoldersCounted;
  }

  lemma {:induction false} SizesRead(bytes: Bytes, p: nat, folders: seq<RawFolder>, n: nat)
    requires p <= |bytes| && n <= |folders| && At(bytes, p, SizesText(folders, n))
    requires FoldersCounted(BareFolders(folders, |folders|)) && forall f :: f in folders ==> Sized(f)
    ensures SizedFoldersAt(bytes, p, BareFolders(folders, |folders|), n)
      == Success(Parsed(folders[..n], p + |SizesText(folders, n)|))
    decreases n
  {
    hide SizedFoldersAt, UintsAt, UintRecords, FoldersCounted, BareFolders, At;
    var bare := BareFolders(folders, |folders|);
    AtBounds(bytes, p, SizesText(folders, n));
    if n == 0 {
      NoSizes(bytes, p, bare);
    } else {
      var last, middle := folders[n - 1], p + |SizesText(folders, n - 1)|;
      AtConcat(bytes, p, SizesText(folders, n - 1), UintRecords(last.unpackSizes));
      SizesRead(bytes, p, folders, n - 1);
      BareAt(folders, |folders|, n - 1);
      AtBounds(bytes, middle, UintRecords(last.unpackSizes));
      UintsRoundTrip(bytes, middle, last.unpackSizes);
      assert Sized(last);
      SizesStep(bytes, p, bare, n - 1, folders[..n - 1], middle, last.unpackSizes, p + |SizesText(folders, n)|);
      assert folders[..n] == folders[..n - 1] + [last];
    }
  }

  // ----- UnpackInfo.

  predicate UnpackHeld(u: RawUnpackInfo) {
    UnpackCounted(u) && FoldersHeld(u.folders)
  }

  function TailText(u: RawUnpackInfo): Bytes {
    [0x0c] + (SizesText(u.folders, |u.folders|) + (CrcsRecord(u.crcs) + [0x00]))
  }

  lemma LastSection(bytes: Bytes, p: nat, crcs: Option<seq<Option<bv32>>>, count: nat)
    requires At(bytes, p, CrcsRecord(crcs) + [0x00]) && (crcs.Some? ==> |crcs.value| == count)
    ensures
      var end := p + |CrcsRecord(crcs)| + 1;
      p < end <= |bytes| && CrcsAt(bytes, p + 1, bytes[p], count) == Success(Parsed(Section(crcs, 0x00), end))
  {
    hide CrcsAt, DigestsRecord;
    AtConcat(bytes, p, CrcsRecord(crcs), [0x00]);
    AtOne(bytes, p + |CrcsRecord(crcs)|, 0x00);
    CrcsSection(bytes, p, crcs, count);
  }

  lemma TailReads(bytes: Bytes, p: nat, u: RawUnpackInfo)
    requires p <= |bytes| && UnpackHeld(u) && At(bytes, p, TailText(u))
    requires FoldersCounted(BareFolders(u.folders, |u.folders|))
    ensures UnpackTailAt(bytes, p, BareFolders(u.folders, |u.folders|)) == Success(Parsed(u, p + |TailText(u)|))
  {
    hide CrcsRecord, CrcsAt, SizesText, SizedFoldersAt, FoldersCounted, FoldersHeld, BareFolders, Sized;
    var n := |u.folders|;
    var sizes, crcs := SizesText(u.folders, n), CrcsRecord(u.crcs) + [0x00];
    FirstByte(bytes, p, 0x0c, sizes + crcs);
    AtConcat(bytes, p + 1, sizes, crcs);
    SizesRead(bytes, p + 1, u.folders, n);
    LastSection(bytes, p + 1 + |sizes|, u.crcs, n);
    assert u.folders[..n] == u.folders;
  }

  /** Folder records stand in the header, or make up an additional stream. */
  datatype Placement = Inline | Apart(dataIndex: u64)

  function SourceText(folders: seq<RawFolder>, place: Placement): Bytes
    requires FoldersHeld(folders)
  {
    match place
    case Inline => [0x00] + FoldersText(folders, |folders|)
    case Apart(dataIndex) => [0x01] + EncodeUint(dataIndex)
  }

  /** The parser is given the stream the folder records stand in, if they stand apart. */
  predicate Supplied(folders: seq<RawFolder>, place: Placement, external: Option<ExternalFolderData>)
    requires FoldersHeld(folders)
  {
    match place
    case Inline => true
    case Apart(dataIndex) => external == Some(ExternalFolderData(dataIndex, FoldersText(folders, |folders|)))
  }

  lemma SourceReads(bytes: Bytes, p: nat, folders: seq<RawFolder>, place: Placement, limits: Limits, t: Totals,
                    external: Option<ExternalFolderData>)
    requires p <= |bytes| && FoldersHeld(folders) && At(bytes, p, SourceText(folders, place))
    requires Supplied(folders, place, external)
    requires FoldersAllowed(folders, limits) && Within(AfterFolders(folders, |folders|, t), limits)
    ensures
      var n := |folders|;
      FolderSourceAt(bytes, p, n, limits, t, external)
      == Success(Parsed(Run(Known(BareFolders(folders, n)), AfterFolders(folders, n, t)),
                        p + |SourceText(folders, place)|))
  {
    hide FoldersText, FoldersAt, FoldersHeld, FoldersCounted, FoldersAllowed, BareFolders, AfterFolders, Within, UintAt,
         EncodeUint, At;
    var n := |folders|;
    var text := FoldersText(folders, n);
    if place.Inline? {
      FirstByte(bytes, p, 0x00, text);
      FoldersRead(bytes, p + 1, folders, n, limits, t);
    } else {
      FirstByte(bytes, p, 0x01, EncodeUint(place.dataIndex));
      UintRoundTrip(bytes, p + 1, place.dataIndex);
      assert text + [] == text;
      AtWhole(text, []);
      FoldersRead(text, 0, folders, n, limits, t);
    }
  }

  /** The stream supplied must be the one the header asks for, and hold nothing else. */
  lemma OtherStreamRefused(bytes: Bytes, p: nat, folders: seq<RawFolder>, dataIndex: u64, limits: Limits, t: Totals,
                           given: u64, rest: Bytes)
    requires p <= |bytes| && FoldersHeld(folders) && At(bytes, p, SourceText(folders, Apart(dataIndex)))
    requires FoldersAllowed(folders, limits) && Within(AfterFolders(folders, |folders|, t), limits)
    requires given != dataIndex || rest != []
    ensures
      var external := Some(ExternalFolderData(given, FoldersText(folders, |folders|) + rest));
      FolderSourceAt(bytes, p, |folders|, limits, t, external)
      == Failure(Format(if given != dataIndex then ExternalIndexChanged else Unconsumed))
  {
    hide FoldersText, FoldersAt, FoldersHeld, FoldersCounted, FoldersAllowed, BareFolders, AfterFolders, Within, UintAt,
         EncodeUint, At;
    var n, text := |folders|, FoldersText(folders, |folders|);
    FirstByte(bytes, p, 0x01, EncodeUint(dataIndex));
    UintRoundTrip(bytes, p + 1, dataIndex);
    AtWhole(text, rest);
    FoldersRead(text + rest, 0, folders, n, limits, t);
  }

  function UnpackText(u: RawUnpackInfo, place: Placement): Bytes
    requires UnpackHeld(u)
  {
    [0x0b] + (EncodeUint(|u.folders|) + (SourceText(u.folders, place) + TailText(u)))
  }

  function AfterUnpack(u: RawUnpackInfo, t: Totals): Totals {
    AfterFolders(u.folders, |u.folders|, t.(folders := t.folders + |u.folders|))
  }

  lemma UnpackReads(bytes: Bytes, p: nat, u: RawUnpackInfo, place: Placement, limits: Limits, t: Totals,
                    external: Option<ExternalFolderData>)
    requires p <= |bytes| && UnpackHeld(u) && At(bytes, p, UnpackText(u, place))
    requires Supplied(u.folders, place, external)
    requires FoldersAllowed(u.folders, limits) && Within(AfterUnpack(u, t), limits)
    ensures UnpackInfoAt(bytes, p, limits, t, external)
      == Success(Parsed(Run(CompleteUnpack(u), AfterUnpack(u, t)), p + |UnpackText(u, place)|))
  {
    hide FoldersHeld, FoldersCounted, FoldersAllowed, SourceText, TailText, FolderSourceAt, UnpackTailAt, Supplied,
         EncodeUint, UintAt, BareFolders, AfterFolders, Sized;
    var n := |u.folders|;
    var source, tail := SourceText(u.folders, place), TailText(u);
    FirstByte(bytes, p, 0x0b, EncodeUint(n) + (source + tail));
    LeadingUint(bytes, p + 1, n, source + tail);
    var q := p + 1 + |EncodeUint(n)|;
    AtConcat(bytes, q, source, tail);
    SourceReads(bytes, q, u.folders, place, limits, t.(folders := t.folders + n), external);
    BareCounted(u.folders);
    AtBounds(bytes, q + |source|, tail);
    TailReads(bytes, q + |source|, u);
  }

  // ----- Sizes and digests behind each other.

  lemma SectionsRead(bytes: Bytes, p: nat, sizes: Option<seq<u64>>, crcs: Option<seq<Option<bv32>>>, m: nat, n: nat)
    requires At(bytes, p, SizesRecord(sizes) + (CrcsRecord(crcs) + [0x00]))
    requires (sizes.Some? ==> |sizes.value| == m) && (crcs.Some? ==> |crcs.value| == n)
    ensures
      var q := p + |SizesRecord(sizes)|;
      var end := q + |CrcsRecord(crcs)| + 1;
      && p <= q < end <= |bytes|
      && SizesAt(bytes, p + 1, bytes[p], m) == Success(Parsed(Section(sizes, bytes[q]), q + 1))
      && CrcsAt(bytes, q + 1, bytes[q], n) == Success(Parsed(Section(crcs, 0x00), end))
  {
    hide CrcsAt, SizesAt, CrcsRecord, SizesRecord, At;
    var q := p + |SizesRecord(sizes)|;
    AtConcat(bytes, p, SizesRecord(sizes), CrcsRecord(crcs) + [0x00]);
    FirstOfCrcs(bytes, q, crcs);
    LastSection(bytes, q, crcs, n);
    SizesSection(bytes, p, sizes, m);
  }

  lemma FirstOfCrcs(bytes: Bytes, p: nat, crcs: Option<seq<Option<bv32>>>)
    requires At(bytes, p, CrcsRecord(crcs) + [0x00])
    ensures p < |bytes| && bytes[p] == if crcs.Some? then 0x0a else 0x00
  {
    hide DigestsRecord;
    AtConcat(bytes, p, CrcsRecord(crcs), [0x00]);
    if crcs.Some? {
      FirstByte(bytes, p, 0x0a, DigestsRecord(crcs.value));
    } else {
      AtOne(bytes, p, 0x00);
    }
  }

  // ----- PackInfo.

  function PackText(pack: RawPackInfo): Bytes {
    EncodeUint(pack.position)
    + (EncodeUint(pack.streams) + (SizesRecord(pack.sizes) + (CrcsRecord(pack.crcs) + [0x00])))
  }

  function AfterPack(pack: RawPackInfo, t: Totals): Totals {
    t.(packed := t.packed + pack.streams)
  }

  lemma PackReads(bytes: Bytes, p: nat, pack: RawPackInfo, limits: Limits, t: Totals)
    requires p <= |bytes| && PackCounted(pack) && At(bytes, p, PackText(pack)) && Within(AfterPack(pack, t), limits)
    ensures PackInfoAt(bytes, p, limits, t) == Success(Parsed(Run(pack, AfterPack(pack, t)), p + |PackText(pack)|))
  {
    hide EncodeUint, UintAt, SizesRecord, CrcsRecord, SizesAt, CrcsAt, At;
    var sections := SizesRecord(pack.sizes) + (CrcsRecord(pack.crcs) + [0x00]);
    LeadingUint(bytes, p, pack.position, EncodeUint(pack.streams) + sections);
    var q := p + |EncodeUint(pack.position)|;
    LeadingUint(bytes, q, pack.streams, sections);
    SectionsRead(bytes, q + |EncodeUint(pack.streams)|, pack.sizes, pack.crcs, pack.streams, pack.streams);
  }

  // ----- SubStreamsInfo.

  function SubstreamsText(s: RawSubstreams): Bytes {
    CountsRecord(s.counts) + (SizesRecord(s.explicitSizes) + (CrcsRecord(s.crcs) + [0x00]))
  }

  lemma FirstOfSections(bytes: Bytes, p: nat, sizes: Option<seq<u64>>, crcs: Option<seq<Option<bv32>>>)
    requires At(bytes, p, SizesRecord(sizes) + (CrcsRecord(crcs) + [0x00]))
    ensures p < |bytes| && bytes[p] in {0x00, 0x09, 0x0a}
  {
    hide UintRecords;
    AtConcat(bytes, p, SizesRecord(sizes), CrcsRecord(crcs) + [0x00]);
    if sizes.Some? {
      FirstByte(bytes, p, 0x09, UintRecords(sizes.value));
    } else {
      FirstOfCrcs(bytes, p, crcs);
    }
  }

  lemma SubstreamsRead(bytes: Bytes, p: nat, s: RawSubstreams, folderCrcs: Option<seq<Option<bv32>>>, limits: Limits,
                       total: nat)
    requires p <= |bytes| && CountsAgree(s, |s.counts|, folderCrcs) && At(bytes, p, SubstreamsText(s))
    requires total + Sum(s.counts) <= limits.maxSubstreams
    ensures SubstreamsAt(bytes, p, |s.counts|, folderCrcs, limits, total)
      == Success(Parsed(SubstreamRun(s, total + Sum(s.counts)), p + |SubstreamsText(s)|))
  {
    hide CountsRecord, SizesRecord, CrcsRecord, CountsAt, SizesAt, CrcsAt, ExplicitBefore, DigestsBefore, TotalBefore,
         Sum, At;
    var n := |s.counts|;
    var sections := SizesRecord(s.explicitSizes) + (CrcsRecord(s.crcs) + [0x00]);
    var q := p + |CountsRecord(s.counts)|;
    AtConcat(bytes, p, CountsRecord(s.counts), sections);
    FirstOfSections(bytes, q, s.explicitSizes, s.crcs);
    CountsSection(bytes, p, s.counts);
    SectionsRead(bytes, q, s.explicitSizes, s.crcs, ExplicitBefore(s.counts, n),
                 DigestsBefore(s.counts, folderCrcs, n));
    TotalIsSum(s.counts, n);
    assert s.counts[..n] == s.counts;
  }

  // ----- StreamsInfo.

  predicate StreamsHeld(s: RawStreamsInfo) {
    Counted(s) && (s.unpack.Some? ==> UnpackHeld(s.unpack.value))
  }

  function PackPart(pack: Option<RawPackInfo>): Bytes {
    if pack.Some? then [0x06] + PackText(pack.value) else []
  }

  function UnpackPart(unpack: Option<RawUnpackInfo>, place: Placement): Bytes
    requires unpack.Some? ==> UnpackHeld(unpack.value)
  {
    if unpack.Some? then [0x07] + UnpackText(unpack.value, place) else []
  }

  function SubstreamsPart(substreams: Option<RawSubstreams>): Bytes {
    if substreams.Some? then [0x08] + SubstreamsText(substreams.value) else []
  }

  function StreamsText(s: RawStreamsInfo, place: Placement): Bytes
    requires StreamsHeld(s)
  {
    PackPart(s.pack) + (UnpackPart(s.unpack, place) + (SubstreamsPart(s.substreams) + [0x00]))
  }

  /** Without a record of its own every folder has one substream. */
  function SubstreamTotal(unpack: Option<RawUnpackInfo>, substreams: Option<RawSubstreams>): nat {
    if unpack.None? then 0 else if substreams.None? then |unpack.value.folders| else Sum(substreams.value.counts)
  }

  function AfterPackPart(pack: Option<RawPackInfo>, t: Totals): Totals {
    if pack.Some? then AfterPack(pack.value, t) else t
  }

  function AfterUnpackPart(unpack: Option<RawUnpackInfo>, t: Totals): Totals {
    if unpack.Some? then AfterUnpack(unpack.value, t) else t
  }

  function AfterSubstreams(unpack: Option<RawUnpackInfo>, substreams: Option<RawSubstreams>, t: Totals): Totals {
    t.(substreams := t.substreams + SubstreamTotal(unpack, substreams))
  }

  /** The running totals once a section has been read. */
  function AfterStreams(s: RawStreamsInfo, t: Totals): Totals {
    AfterSubstreams(s.unpack, s.substreams, AfterUnpackPart(s.unpack, AfterPackPart(s.pack, t)))
  }

  predicate StreamsAllowed(s: RawStreamsInfo, limits: Limits) {
    s.unpack.Some? ==> FoldersAllowed(s.unpack.value.folders, limits)
  }

  predicate PartSupplied(unpack: Option<RawUnpackInfo>, place: Placement, external: Option<ExternalFolderData>)
    requires unpack.Some? ==> UnpackHeld(unpack.value)
  {
    unpack.Some? ==> Supplied(unpack.value.folders, place, external)
  }

  lemma PackPartReads(bytes: Bytes, p: nat, pack: Option<RawPackInfo>, limits: Limits, t: Totals)
    requires (pack.Some? ==> PackCounted(pack.value)) && At(bytes, p, PackPart(pack))
    requires Within(AfterPackPart(pack, t), limits)
    requires
      var q := p + |PackPart(pack)|;
      q < |bytes| && (pack.None? ==> bytes[q] != 0x06)
    ensures
      var q := p + |PackPart(pack)|;
      PackStageAt(bytes, p, limits, t) == Success(Parsed(Run(Section(pack, bytes[q]), AfterPackPart(pack, t)), q + 1))
  {
    hide PackText, PackCounted, PackInfoAt, AfterPack, Within;
    if pack.Some? {
      FirstByte(bytes, p, 0x06, PackText(pack.value));
      PackReads(bytes, p + 1, pack.value, limits, t);
    }
  }

  /** What follows UnpackInfo: the substreams, if the byte here announces them, and the end. */
  lemma EndReads(bytes: Bytes, p: nat, s: RawStreamsInfo, limits: Limits, t: Totals)
    requires StreamsHeld(s) && At(bytes, p, SubstreamsPart(s.substreams) + [0x00])
    requires Within(AfterSubstreams(s.unpack, s.substreams, t), limits)
    ensures
      var end := p + |SubstreamsPart(s.substreams)| + 1;
      && p < end <= |bytes|
      && EndAt(bytes, p + 1, s.pack, s.unpack, bytes[p], limits, t)
         == Success(Parsed(Run(Complete(s), AfterSubstreams(s.unpack, s.substreams, t)), end))
  {
    hide SubstreamsText, SubstreamsAt, PackCounted, UnpackCounted, CountsAgree, Sum, FoldersHeld, At;
    var end := p + |SubstreamsPart(s.substreams)|;
    AtConcat(bytes, p, SubstreamsPart(s.substreams), [0x00]);
    AtOne(bytes, end, 0x00);
    if s.substreams.Some? {
      var text := SubstreamsText(s.substreams.value);
      FirstByte(bytes, p, 0x08, text);
      CountsLong(s.substreams.value, |s.unpack.value.folders|, s.unpack.value.crcs);
      SubstreamsRead(bytes, p + 1, s.substreams.value, s.unpack.value.crcs, limits, t.substreams);
    }
  }

  lemma CountsLong(s: RawSubstreams, folders: nat, folderCrcs: Option<seq<Option<bv32>>>)
    requires CountsAgree(s, folders, folderCrcs)
    ensures |s.counts| == folders
  {
  }

  lemma FirstOfEnd(bytes: Bytes, p: nat, substreams: Option<RawSubstreams>)
    requires At(bytes, p, SubstreamsPart(substreams) + [0x00])
    ensures p < |bytes| && bytes[p] in {0x00, 0x08}
  {
    hide SubstreamsText;
    AtConcat(bytes, p, SubstreamsPart(substreams), [0x00]);
    if substreams.Some? {
      FirstByte(bytes, p, 0x08, SubstreamsText(substreams.value));
    } else {
      AtOne(bytes, p, 0x00);
    }
  }

  lemma RestReads(bytes: Bytes, p: nat, s: RawStreamsInfo, place: Placement, limits: Limits, t: Totals,
                  external: Option<ExternalFolderData>)
    requires StreamsHeld(s) && PartSupplied(s.unpack, place, external)
    requires At(bytes, p, UnpackPart(s.unpack, place) + (SubstreamsPart(s.substreams) + [0x00]))
    requires StreamsAllowed(s, limits)
    requires Within(AfterUnpackPart(s.unpack, t), limits)
      && Within(AfterSubstreams(s.unpack, s.substreams, AfterUnpackPart(s.unpack, t)), limits)
    ensures
      var end := p + |UnpackPart(s.unpack, place)| + |SubstreamsPart(s.substreams)| + 1;
      && p < end <= |bytes| && bytes[p] in {0x00, 0x07, 0x08}
      && RestAt(bytes, p + 1, s.pack, bytes[p], limits, t, external)
         == Success(Parsed(
              Run(Complete(s), AfterSubstreams(s.unpack, s.substreams, AfterUnpackPart(s.unpack, t))), end))
  {
    hide UnpackText, UnpackInfoAt, EndAt, PackCounted, UnpackCounted, CountsAgree, FoldersHeld, Supplied, AfterUnpack,
         SubstreamsPart, AfterSubstreams, Within, FoldersAllowed, At;
    var part, rest := UnpackPart(s.unpack, place), SubstreamsPart(s.substreams) + [0x00];
    AtConcat(bytes, p, part, rest);
    FirstOfEnd(bytes, p + |part|, s.substreams);
    EndReads(bytes, p + |part|, s, limits, AfterUnpackPart(s.unpack, t));
    if s.unpack.Some? {
      FirstByte(bytes, p, 0x07, UnpackText(s.unpack.value, place));
      UnpackReads(bytes, p + 1, s.unpack.value, place, limits, t, external);
    }
  }

  /** Totals only grow, so the last ones bound those before. */
  lemma Growing(s: RawStreamsInfo, t: Totals, limits: Limits)
    requires Within(AfterStreams(s, t), limits)
    ensures Within(AfterPackPart(s.pack, t), limits)
    ensures Within(AfterUnpackPart(s.unpack, AfterPackPart(s.pack, t)), limits)
    ensures Within(t, limits)
  {
    hide AfterFolders, Sum;
  }

  /** Reading a streams section inverts writing it. */
  lemma StreamsRead(bytes: Bytes, p: nat, s: RawStreamsInfo, place: Placement, limits: Limits, t: Totals,
                    external: Option<ExternalFolderData>)
    requires StreamsHeld(s) && PartSupplied(s.unpack, place, external) && At(bytes, p, StreamsText(s, place))
    requires StreamsAllowed(s, limits) && Within(AfterStreams(s, t), limits)
    ensures p <= |bytes|
    ensures StreamsInfoAt(bytes, p, limits, t, external)
      == Success(Parsed(Run(Complete(s), AfterStreams(s, t)), p + |StreamsText(s, place)|))
  {
    hide PackPart, UnpackPart, SubstreamsPart, PackStageAt, RestAt, PackCounted, UnpackHeld, UnpackCounted, CountsAgree,
         PartSupplied, AfterPackPart, AfterUnpackPart, AfterSubstreams, Within, FoldersAllowed, At;
    var rest := UnpackPart(s.unpack, place) + (SubstreamsPart(s.substreams) + [0x00]);
    var q := p + |PackPart(s.pack)|;
    Growing(s, t, limits);
    AtConcat(bytes, p, PackPart(s.pack), rest);
    RestReads(bytes, q, s, place, limits, AfterPackPart(s.pack, t), external);
    PackPartReads(bytes, p, s.pack, limits, t);
  }

  // ----- Folder records that are still to come.

  /** The head of a section whose folder records stand in a stream not decoded yet. */
  function PendingText(pack: Option<RawPackInfo>, count: u64, dataIndex: u64): Bytes {
    PackPart(pack) + ([0x07] + ([0x0b] + (EncodeUint(count) + ([0x01] + EncodeUint(dataIndex)))))
  }

  function AfterPending(pack: Option<RawPackInfo>, count: u64, t: Totals): Totals {
    var packed := AfterPackPart(pack, t);
    packed.(folders := packed.folders + count)
  }

  lemma PendingUnpackReads(bytes: Bytes, p: nat, count: u64, dataIndex: u64, limits: Limits, t: Totals)
    requires p <= |bytes| && At(bytes, p, [0x0b] + (EncodeUint(count) + ([0x01] + EncodeUint(dataIndex))))
    requires 0 < count && t.folders + count <= limits.maxFolders
    ensures
      var end := p + 2 + |EncodeUint(count)| + |EncodeUint(dataIndex)|;
      UnpackInfoAt(bytes, p, limits, t, None)
      == Success(Parsed(Run(ExternalUnpack(dataIndex), t.(folders := t.folders + count)), end))
  {
    hide EncodeUint, UintAt, At, U8At, FoldersAt, FoldersCounted, UnpackTailAt, UnpackCounted;
    var index := [0x01] + EncodeUint(dataIndex);
    FirstByte(bytes, p, 0x0b, EncodeUint(count) + index);
    LeadingUint(bytes, p + 1, count, index);
    var q := p + 1 + |EncodeUint(count)|;
    FirstByte(bytes, q, 0x01, EncodeUint(dataIndex));
    UintRoundTrip(bytes, q + 1, dataIndex);
  }

  /** The parser stops there and reports which stream it needs. */
  lemma PendingReads(bytes: Bytes, p: nat, pack: Option<RawPackInfo>, count: u64, dataIndex: u64, limits: Limits,
                     t: Totals)
    requires (pack.Some? ==> PackCounted(pack.value)) && At(bytes, p, PendingText(pack, count, dataIndex))
    requires 0 < count && Within(AfterPending(pack, count, t), limits)
    ensures p <= |bytes|
    ensures StreamsInfoAt(bytes, p, limits, t, None)
      == Success(Parsed(Run(External(pack, dataIndex), AfterPending(pack, count, t)),
                        p + |PendingText(pack, count, dataIndex)|))
  {
    hide EncodeUint, PackPart, PackStageAt, PackCounted, UnpackInfoAt, At;
    var head := [0x0b] + (EncodeUint(count) + ([0x01] + EncodeUint(dataIndex)));
    var q := p + |PackPart(pack)|;
    AtConcat(bytes, p, PackPart(pack), [0x07] + head);
    FirstByte(bytes, q, 0x07, head);
    PackPartReads(bytes, p, pack, limits, t);
    PendingUnpackReads(bytes, q + 1, count, dataIndex, limits, AfterPackPart(pack, t));
  }
}
