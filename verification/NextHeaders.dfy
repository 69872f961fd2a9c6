/** Validation of a parsed next header: both stream sections, their ranges, the file
    list and the archive properties. */
module NextHeaders {
  import opened Support
  import opened Model
  import opened Folders
  import opened SubstreamSyntax
  import opened StreamSyntax
  import opened HeaderSyntax
  import opened FolderValidation
  import opened StreamValidation
  import opened HeaderValidation
  import opened SectionMeaning
  import opened FileMapping
  import opened Ranges

  datatype ArchiveHeader = ArchiveHeader(
    properties: seq<RawProperty>,
    additional: Option<StreamsInfo>,
    main: Option<StreamsInfo>,
    files: Option<FilesInfo>)

  datatype PendingHeader = PendingHeader(additional: StreamsInfo, dataIndex: u64, headerBytes: Bytes)

  datatype ParsedNextHeader =
    | PlainHeader(header: ArchiveHeader)
    | EncodedHeader(streams: StreamsInfo)
    | PendingFolders(pending: PendingHeader)

  function FolderCount(streams: Option<StreamsInfo>): nat {
    if streams.Some? then |streams.value.folders| else 0
  }

  predicate HeaderStored(h: RawHeader) {
    && (h.additional.Some? ==> StoredStreams(h.additional.value)) && (h.main.Some? ==> StoredStreams(h.main.value))
    && StoredProperties(h.archiveProperties) && (h.files.Some? ==> StoredProperties(h.files.value.properties))
  }

  lemma CountedHeaderStored(h: RawHeader)
    requires HeaderCounted(h)
    ensures HeaderStored(h)
  {
    hide Counted, StoredStreams, StoredProperties;
    if h.additional.Some? {
      CountedIsStored(h.additional.value);
    }
    if h.main.Some? {
      CountedIsStored(h.main.value);
    }
  }

  /** The whole effect of validating a header. */
  ghost predicate HeaderOk(h: ArchiveHeader, raw: RawHeader, envelope: Envelope, archive: Bytes, tables: Tables) {
    && SectionOk(h.additional, raw.additional, envelope, archive, tables)
    && SectionOk(h.main, raw.main, envelope, archive, tables)
    && Disjoint(SectionRanges(raw.additional, envelope) + SectionRanges(raw.main, envelope))
    && h.properties == raw.archiveProperties
    && h.files.Some? == raw.files.Some?
    && (h.files.Some? ==> FilesInfoOk(h.files.value, raw.files.value, h.main, FolderCount(h.additional)))
  }

  method CopyProperties(properties: seq<RawProperty>, control: ParseControl) returns (r: Result<seq<RawProperty>>)
    requires StoredProperties(properties)
    modifies control
    ensures r.Success? ==> r.value == properties
    ensures r.Failure? ==> Interrupted(r) && control.stopped
  {
    var _ :- control.Checkpoint(|properties|);
    var copied: seq<RawProperty> := [];
    for i := 0 to |properties|
      invariant copied == properties[..i]
    {
      assert properties[i] in properties;
      var data :- CopyBytes(properties[i].data, control);
      copied := copied + [RawProperty(properties[i].id, data)];
    }
    return Success(copied);
  }

  /** A validated section's substream count is exact and fits the machine. */
  lemma SectionSubstreams(info: Option<StreamsInfo>, raw: Option<RawStreamsInfo>, envelope: Envelope, archive: Bytes,
                          tables: Tables)
    requires SectionOk(info, raw, envelope, archive, tables)
    ensures info.Some? ==>
      && info.value.substreamCount <= U64_MAX
      && SubstreamsBefore(info.value.folders, |info.value.folders|) == info.value.substreamCount
  {
    hide PackStreamsOk, DraftsOk, DividedOk, CountsOf, PackedBefore, TotalBefore, SubstreamsBefore;
    if info.Some? {
      SubstreamCountExact(info.value, raw.value, envelope, archive, tables);
    }
  }

  // ----- What validation of a header asks for.

  /** The substreams a section declares, and its folders. */
  function SubstreamCount(raw: Option<RawStreamsInfo>): nat {
    if raw.None? || raw.value.unpack.None? then 0
    else
      var counts := CountsOf(raw.value.substreams, |raw.value.unpack.value.folders|);
      TotalBefore(counts, |counts|)
  }

  function RawFolderCount(raw: Option<RawStreamsInfo>): nat {
    if raw.None? || raw.value.unpack.None? then 0 else |raw.value.unpack.value.folders|
  }

  /** Validation keeps both numbers. */
  lemma SectionNumbers(info: Option<StreamsInfo>, raw: Option<RawStreamsInfo>, envelope: Envelope, archive: Bytes,
                       tables: Tables)
    requires SectionOk(info, raw, envelope, archive, tables)
    ensures |AllStreams(info)| == SubstreamCount(raw) && FolderCount(info) == RawFolderCount(raw)
  {
    hide PackStreamsOk, DraftOf, DividedOk, CountsOf, PackedBefore, TotalBefore, SubstreamsBefore, Mappings;
    if info.Some? {
      SubstreamCountExact(info.value, raw.value, envelope, archive, tables);
      if raw.value.pack.None? {
        NoSubstreams();
      }
    }
  }

  lemma NoSubstreams()
    ensures SubstreamsBefore([], 0) == 0
  {
  }

  ghost predicate HeaderAcceptable(raw: RawHeader, envelope: Envelope, archive: Bytes, tables: Tables, limits: Limits) {
    && StreamsAcceptable(raw.additional, raw.main, envelope, archive, tables, limits)
    && (raw.files.Some? ==>
          InfoAcceptable(raw.files.value, SubstreamCount(raw.main), RawFolderCount(raw.additional), limits))
  }

  method ValidateHeaderFiles(files: Option<RawFilesInfo>, main: Option<StreamsInfo>, additionalFolders: nat,
                             limits: Limits, control: ParseControl)
      returns (r: Result<Option<FilesInfo>>)
    requires files.Some? ==> StoredProperties(files.value.properties)
    requires main.Some? ==>
      && main.value.substreamCount <= U64_MAX
      && SubstreamsBefore(main.value.folders, |main.value.folders|) == main.value.substreamCount
    modifies control
    ensures r.Success? ==> r.value.Some? == files.Some?
    ensures r.Success? && files.Some? ==> FilesInfoOk(r.value.value, files.value, main, additionalFolders)
    ensures r.Failure? ==> !LengthFault(r.error)
    ensures r.Success? && files.Some? ==> InfoAcceptable(files.value, |AllStreams(main)|, additionalFolders, limits)
    ensures r.Failure? ==>
      || (Interrupted(r) && control.stopped)
      || (files.Some? && !InfoAcceptable(files.value, |AllStreams(main)|, additionalFolders, limits))
  {
    hide AllStreams, InfoAcceptable, FilesInfoOk, LengthFault, StoredProperties, SubstreamsBefore;
    if files.None? {
      return Success(None);
    }
    var info :- ValidateFilesInfo(files.value, main, additionalFolders, limits, control);
    return Success(Some(info));
  }

  method ValidatePlainHeader(raw: RawHeader, envelope: Envelope, archive: Bytes, tables: Tables, limits: Limits,
                             control: ParseControl)
      returns (r: Result<ArchiveHeader>)
    requires HeaderStored(raw)
    modifies control
    ensures r.Success? ==> HeaderOk(r.value, raw, envelope, archive, tables)
    ensures r.Failure? && HeaderCounted(raw) ==> !LengthFault(r.error)
    ensures r.Success? ==> HeaderAcceptable(raw, envelope, archive, tables, limits)
    ensures r.Failure? ==>
      (Interrupted(r) && control.stopped) || !HeaderAcceptable(raw, envelope, archive, tables, limits)
  {
    hide StreamsAcceptable, InfoAcceptable, AllStreams, SubstreamCount, FolderCount, RawFolderCount;
    hide SectionOk, Disjoint, SectionRanges, FilesInfoOk, LengthFault, StoredStreams, StoredProperties, Counted,
         SubstreamsBefore;
    NotLengths();
    var streams :- ValidateHeaderStreams(raw.additional, raw.main, envelope, archive, tables, limits, control);
    SectionSubstreams(streams.main, raw.main, envelope, archive, tables);
    SectionNumbers(streams.main, raw.main, envelope, archive, tables);
    SectionNumbers(streams.additional, raw.additional, envelope, archive, tables);
    var files :- ValidateHeaderFiles(raw.files, streams.main, FolderCount(streams.additional), limits, control);
    var properties :- CopyProperties(raw.archiveProperties, control);
    return Success(ArchiveHeader(properties, streams.additional, streams.main, files));
  }

  // ----- Headers that need another stream first.

  ghost predicate PendingOk(p: PendingHeader, raw: RawPending, envelope: Envelope, archive: Bytes, tables: Tables) {
    && StreamsOk(p.additional, raw.additional, envelope, archive, tables)
    && raw.mainPack.Some? && (exists streams :: PackStreamsOk(streams, raw.mainPack.value, envelope, archive))
    && Disjoint(SectionRanges(Some(raw.additional), envelope) + PackRanges(raw.mainPack.value, envelope))
    && p.dataIndex == raw.dataIndex < |p.additional.folders| && p.headerBytes == raw.headerBytes
  }

  function PackRanges(pack: RawPackInfo, envelope: Envelope): (ranges: seq<Range>)
    ensures Proper(ranges)
  {
    if pack.sizes.None? then [] else SectionRange(pack, envelope)
  }

  ghost predicate PendingAcceptable(raw: RawPending, envelope: Envelope, archive: Bytes, tables: Tables,
                                    limits: Limits) {
    && SectionAcceptable(raw.additional, envelope, archive, tables, limits)
    && raw.mainPack.Some? && PackAcceptable(raw.mainPack.value, envelope, archive)
    && Disjoint(SectionRanges(Some(raw.additional), envelope) + PackRanges(raw.mainPack.value, envelope))
    && raw.dataIndex < RawFolderCount(Some(raw.additional))
  }

  method CheckDisjoint(ranges: seq<Range>) returns (r: Result<()>)
    requires Proper(ranges)
    ensures r.Success? ==> Disjoint(ranges)
    ensures r.Failure? ==> r.error == Format(PackRangesOverlap) && !Disjoint(ranges)
  {
    var list := new Range[|ranges|](i requires 0 <= i < |ranges| => ranges[i]);
    assert list[..] == ranges;
    r := CheckNonOverlapping(list);
  }

  method ValidatePending(raw: RawPending, envelope: Envelope, archive: Bytes, tables: Tables, limits: Limits,
                         control: ParseControl)
      returns (r: Result<PendingHeader>)
    requires PendingCounted(raw) && |raw.headerBytes| <= U64_MAX
    modifies control
    ensures r.Success? ==> PendingOk(r.value, raw, envelope, archive, tables)
    ensures r.Failure? ==> !LengthFault(r.error)
    ensures r.Success? ==> PendingAcceptable(raw, envelope, archive, tables, limits)
    ensures r.Failure? ==>
      (Interrupted(r) && control.stopped) || !PendingAcceptable(raw, envelope, archive, tables, limits)
  {
    hide SectionAcceptable, PackAcceptable, RawFolderCount, SectionWork, StreamsOk, Disjoint, PackStreamsOk,
         SectionRange, LengthFault, Counted, PackCounted, StoredStreams;
    PendingFaults();
    CountedIsStored(raw.additional);
    var additional, ranges := ValidateStreams(raw.additional, envelope, archive, tables, limits, control, []);
    if additional.Failure? {
      return Failure(additional.error);
    }
    assert ranges == SectionRanges(Some(raw.additional), envelope);
    OneSection(additional.value, raw.additional, envelope, archive, tables);
    if raw.mainPack.None? {
      return Failure(Format(PackWithoutUnpack));
    }
    var packStreams;
    packStreams, ranges := ValidatePackRanges(raw.mainPack.value, envelope, archive, ranges, control);
    if packStreams.Failure? {
      return Failure(packStreams.error);
    }
    PackSizesGiven(packStreams.value, raw.mainPack.value, envelope, archive);
    ProperSum(SectionRanges(Some(raw.additional), envelope), PackRanges(raw.mainPack.value, envelope));
    var _ :- CheckDisjoint(ranges);
    if raw.dataIndex >= |additional.value.folders| {
      return Failure(Format(DataIndexOutside));
    }
    var headerBytes :- CopyBytes(raw.headerBytes, control);
    return Success(PendingHeader(additional.value, raw.dataIndex, headerBytes));
  }

  lemma OneSection(info: StreamsInfo, raw: RawStreamsInfo, envelope: Envelope, archive: Bytes, tables: Tables)
    requires StreamsOk(info, raw, envelope, archive, tables)
    ensures |info.folders| == RawFolderCount(Some(raw))
  {
    hide StreamsOk;
    SectionNumbers(Some(info), Some(raw), envelope, archive, tables);
  }

  lemma PendingFaults()
    ensures forall e :: Interruption(e) ==> !LengthFault(e)
    ensures !LengthFault(Format(PackWithoutUnpack)) && !LengthFault(Format(DataIndexOutside))
      && !LengthFault(Format(PackRangesOverlap))
  {
  }

  method ValidateEncoded(raw: RawStreamsInfo, envelope: Envelope, archive: Bytes, tables: Tables, limits: Limits,
                         control: ParseControl)
      returns (r: Result<StreamsInfo>)
    requires Counted(raw)
    modifies control
    ensures r.Success? ==>
      StreamsOk(r.value, raw, envelope, archive, tables) && Disjoint(SectionRanges(Some(raw), envelope))
    ensures r.Failure? ==> !LengthFault(r.error)
    ensures r.Success? ==> StreamsAcceptable(None, Some(raw), envelope, archive, tables, limits)
    ensures r.Failure? ==>
      (Interrupted(r) && control.stopped) || !StreamsAcceptable(None, Some(raw), envelope, archive, tables, limits)
  {
    hide SectionAcceptable, SectionWork, StreamsOk, Disjoint, LengthFault, Counted, StoredStreams;
    PendingFaults();
    CountedIsStored(raw);
    var streams, ranges := ValidateStreams(raw, envelope, archive, tables, limits, control, []);
    if streams.Failure? {
      return Failure(streams.error);
    }
    assert ranges == SectionRanges(Some(raw), envelope);
    var _ :- CheckDisjoint(ranges);
    return streams;
  }

  // ----- Apart in the archive.

  /** Two sections' packed bytes have no byte in common. */
  predicate Apart(a: Option<RawPackInfo>, b: Option<RawPackInfo>, envelope: Envelope) {
    a.Some? && a.value.sizes.Some? && b.Some? && b.value.sizes.Some? ==>
      var startA, startB := envelope.signatureOffset + 32 + a.value.position,
          envelope.signatureOffset + 32 + b.value.position;
      var lengthA, lengthB := Sum(a.value.sizes.value), Sum(b.value.sizes.value);
      lengthA == 0 || lengthB == 0 || startA + lengthA <= startB || startB + lengthB <= startA
  }

  function RangesOf(pack: Option<RawPackInfo>, envelope: Envelope): (ranges: seq<Range>)
    ensures Proper(ranges)
  {
    if pack.None? then [] else PackRanges(pack.value, envelope)
  }

  lemma RangeOfPack(pack: Option<RawPackInfo>, envelope: Envelope)
    ensures RangesOf(pack, envelope) ==
      if pack.None? || pack.value.sizes.None? then []
      else
        var start, length := envelope.signatureOffset + 32 + pack.value.position, Sum(pack.value.sizes.value);
        if length == 0 then [] else [Range(start, start + length)]
  {
    hide SizesBefore, Sum;
    if pack.Some? && pack.value.sizes.Some? {
      var sizes := pack.value.sizes.value;
      BeforeIsSum(sizes, |sizes|);
      assert sizes[..|sizes|] == sizes;
    }
  }

  lemma PairDisjoint(a: Range, b: Range)
    ensures Disjoint([a] + [b]) <==> !Overlap(a, b)
  {
    var both := [a] + [b];
    assert both[0] == a && both[1] == b;
  }

  lemma AtMostOne(ranges: seq<Range>)
    requires |ranges| <= 1
    ensures Disjoint(ranges)
  {
  }

  lemma DisjointMeansApart(a: Option<RawPackInfo>, b: Option<RawPackInfo>, envelope: Envelope)
    ensures Disjoint(RangesOf(a, envelope) + RangesOf(b, envelope)) <==> Apart(a, b, envelope)
  {
    hide Disjoint, Sum, RangesOf;
    RangeOfPack(a, envelope);
    RangeOfPack(b, envelope);
    var ra, rb := RangesOf(a, envelope), RangesOf(b, envelope);
    if ra != [] && rb != [] {
      PairDisjoint(ra[0], rb[0]);
      assert ra + rb == [ra[0]] + [rb[0]];
    } else {
      AtMostOne(ra + rb);
    }
  }

  function PackOf(raw: Option<RawStreamsInfo>): Option<RawPackInfo> {
    if raw.None? then None else raw.value.pack
  }

  lemma SectionIsPack(raw: Option<RawStreamsInfo>, envelope: Envelope)
    ensures SectionRanges(raw, envelope) == RangesOf(PackOf(raw), envelope)
  {
    hide SectionRange;
  }

  /** Two sections are accepted together exactly when each is and their packed bytes are
      apart. */
  lemma SectionsAcceptedExactly(additional: Option<RawStreamsInfo>, main: Option<RawStreamsInfo>, envelope: Envelope,
                                archive: Bytes, tables: Tables, limits: Limits)
    ensures StreamsAcceptable(additional, main, envelope, archive, tables, limits) <==>
      && (additional.Some? ==> SectionAcceptable(additional.value, envelope, archive, tables, limits))
      && (main.Some? ==> SectionAcceptable(main.value, envelope, archive, tables, limits))
      && Apart(PackOf(additional), PackOf(main), envelope)
  {
    hide SectionAcceptable, Disjoint, SectionRanges, RangesOf, Apart;
    SectionIsPack(additional, envelope);
    SectionIsPack(main, envelope);
    DisjointMeansApart(PackOf(additional), PackOf(main), envelope);
  }

  /** A pending header is accepted exactly when its additional streams and the placed main
      streams are, their packed bytes are apart, and the stream it asks for is one of the
      additional folders. */
  lemma PendingAcceptedExactly(raw: RawPending, envelope: Envelope, archive: Bytes, tables: Tables, limits: Limits)
    ensures PendingAcceptable(raw, envelope, archive, tables, limits) <==>
      && SectionAcceptable(raw.additional, envelope, archive, tables, limits)
      && raw.mainPack.Some? && PackAcceptable(raw.mainPack.value, envelope, archive)
      && Apart(raw.additional.pack, raw.mainPack, envelope)
      && raw.additional.unpack.Some? && raw.dataIndex < |raw.additional.unpack.value.folders|
  {
    hide SectionAcceptable, PackAcceptable, Disjoint, SectionRanges, PackRanges, Apart;
    SectionIsPack(Some(raw.additional), envelope);
    DisjointMeansApart(raw.additional.pack, raw.mainPack, envelope);
  }

  /** What it keeps: the bytes to parse again, and a stream it has. */
  lemma PendingKeeps(p: PendingHeader, raw: RawPending, envelope: Envelope, archive: Bytes, tables: Tables)
    requires PendingOk(p, raw, envelope, archive, tables)
    ensures p.headerBytes == raw.headerBytes && p.dataIndex == raw.dataIndex && p.dataIndex < |p.additional.folders|
    ensures Apart(raw.additional.pack, raw.mainPack, envelope)
  {
    hide StreamsOk, PackStreamsOk, Disjoint, SectionRanges, PackRanges, Apart;
    SectionIsPack(Some(raw.additional), envelope);
    DisjointMeansApart(raw.additional.pack, raw.mainPack, envelope);
  }

  // ----- Any next header.

  ghost predicate NextOk(h: ParsedNextHeader, raw: RawNextHeader, envelope: Envelope, archive: Bytes, tables: Tables) {
    match raw
    case Header(header) => h.PlainHeader? && HeaderOk(h.header, header, envelope, archive, tables)
    case Encoded(streams) => h.EncodedHeader? && StreamsOk(h.streams, streams, envelope, archive, tables)
    case ExternalFolders(pending) => h.PendingFolders? && PendingOk(h.pending, pending, envelope, archive, tables)
  }

  ghost predicate NextAcceptable(raw: RawNextHeader, envelope: Envelope, archive: Bytes, tables: Tables,
                                 limits: Limits) {
    match raw
    case Header(header) => HeaderAcceptable(header, envelope, archive, tables, limits)
    case Encoded(streams) => StreamsAcceptable(None, Some(streams), envelope, archive, tables, limits)
    case ExternalFolders(pending) => PendingAcceptable(pending, envelope, archive, tables, limits)
  }

  /** Accepts exactly the acceptable headers, unless it is interrupted. */
  method ValidateNextHeader(raw: RawNextHeader, envelope: Envelope, archive: Bytes, tables: Tables, limits: Limits,
                            control: ParseControl)
      returns (r: Result<ParsedNextHeader>)
    requires NextCounted(raw) && (raw.ExternalFolders? ==> |raw.pending.headerBytes| <= U64_MAX)
    modifies control
    ensures r.Success? ==> NextOk(r.value, raw, envelope, archive, tables)
    ensures r.Failure? ==> !LengthFault(r.error)
    ensures r.Success? ==> NextAcceptable(raw, envelope, archive, tables, limits)
    ensures r.Failure? ==>
      (Interrupted(r) && control.stopped) || !NextAcceptable(raw, envelope, archive, tables, limits)
  {
    hide HeaderAcceptable, StreamsAcceptable, PendingAcceptable, HeaderOk, StreamsOk, PendingOk, LengthFault,
         HeaderCounted, Counted, PendingCounted, HeaderStored;
    match raw {
      case Header(header) =>
        CountedHeaderStored(header);
        var plain :- ValidatePlainHeader(header, envelope, archive, tables, limits, control);
        return Success(PlainHeader(plain));
      case Encoded(streams) =>
        var encoded :- ValidateEncoded(streams, envelope, archive, tables, limits, control);
        return Success(EncodedHeader(encoded));
      case ExternalFolders(raw) =>
        var pending :- ValidatePending(raw, envelope, archive, tables, limits, control);
        return Success(PendingFolders(pending));
    }
  }
}
