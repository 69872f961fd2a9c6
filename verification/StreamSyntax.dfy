/** PackInfo, UnpackInfo and StreamsInfo. Besides the record the bytes dictate, what is
    proved of them is what validation relies on: every vector has the length its counts
    call for. */
module StreamSyntax {
  import opened Support
  import opened Bounded
  import opened Model
  import opened Reading
  import opened FolderSyntax
  import opened SubstreamSyntax
  import opened Graph

  const ID_PACK_INFO: u8 := 0x06
  const ID_UNPACK_INFO: u8 := 0x07
  const ID_SUBSTREAMS_INFO: u8 := 0x08
  const ID_FOLDER: u8 := 0x0b
  const ID_CODERS_UNPACK_SIZE: u8 := 0x0c

  /** Folder records stored in a stream of their own. */
  datatype ExternalFolderData = ExternalFolderData(dataIndex: u64, bytes: Bytes)

  datatype ParsedUnpackInfo = CompleteUnpack(unpack: RawUnpackInfo) | ExternalUnpack(index: u64)

  datatype ParsedStreamsInfo = Complete(raw: RawStreamsInfo) | External(pack: Option<RawPackInfo>, dataIndex: u64)

  // ----- What every parsed record satisfies.

  predicate PackCounted(pack: RawPackInfo) {
    && pack.streams > 0
    && (pack.sizes.Some? ==> |pack.sizes.value| == pack.streams)
    && (pack.crcs.Some? ==> |pack.crcs.value| == pack.streams)
  }

  predicate FolderCounted(f: RawFolder) {
    Consistent(f) && TotalsOk(f) && Stored(f)
  }

  predicate FoldersCounted(folders: seq<RawFolder>) {
    forall f :: f in folders ==> FolderCounted(f)
  }

  predicate Sized(f: RawFolder) {
    |f.unpackSizes| == f.outputStreams
  }

  predicate UnpackCounted(unpack: RawUnpackInfo) {
    && 0 < |unpack.folders| <= U64_MAX
    && FoldersCounted(unpack.folders)
    && (forall f :: f in unpack.folders ==> Sized(f))
    && (unpack.crcs.Some? ==> |unpack.crcs.value| == |unpack.folders|)
  }

  predicate Counted(raw: RawStreamsInfo) {
    && (raw.pack.Some? ==> PackCounted(raw.pack.value))
    && (raw.unpack.Some? ==> UnpackCounted(raw.unpack.value))
    && (raw.substreams.Some? ==>
          raw.unpack.Some? && CountsAgree(raw.substreams.value, |raw.unpack.value.folders|, raw.unpack.value.crcs))
  }

  /** Parsed records have lengths the machine can count. */
  lemma CountedIsStored(raw: RawStreamsInfo)
    requires Counted(raw)
    ensures StoredStreams(raw)
  {
    hide PackCounted, CountsAgree, Consistent, TotalsOk, Stored;
  }

  // ----- Folders.

  lemma {:induction false} CoderTotals(bytes: Bytes, p: nat, count: nat, maximum: nat)
    requires p <= |bytes| && CodersAt(bytes, p, count, maximum).Success?
    ensures
      var run := CodersAt(bytes, p, count, maximum).value.value;
      run.inputs == Before(InputCounts(run.coders), count) && run.outputs == Before(OutputCounts(run.coders), count)
    decreases count
  {
    hide CoderAt;
    if count > 0 {
      CoderTotals(bytes, p, count - 1, maximum);
      var before, after := CodersAt(bytes, p, count - 1, maximum).value.value,
          CodersAt(bytes, p, count, maximum).value.value;
      BeforePrefix(InputCounts(before.coders), InputCounts(after.coders), count - 1);
      BeforePrefix(OutputCounts(before.coders), OutputCounts(after.coders), count - 1);
    }
  }

  lemma {:induction false} BeforePrefix(a: seq<nat>, b: seq<nat>, k: nat)
    requires k <= |a| && k <= |b| && forall i :: 0 <= i < k ==> a[i] == b[i]
    ensures Before(a, k) == Before(b, k)
    decreases k
  {
    if k > 0 {
      BeforePrefix(a, b, k - 1);
    }
  }

  /** The declared port totals of a parsed folder are the sums over its coders, so
      the checks that compare them again cannot fail. */
  lemma ParsedFolderCounted(bytes: Bytes, p: nat, limits: Limits, coders: nat, streams: nat)
    requires p <= |bytes| && FolderAt(bytes, p, limits, coders, streams).Success?
    ensures FolderCounted(FolderAt(bytes, p, limits, coders, streams).value.value.folder)
  {
    hide UintAt, BindsAt, PackedIndicesAt, CodersAt, CheckPorts;
    var count := UintAt(bytes, p).value;
    CoderTotals(bytes, count.end, count.value, limits.maxCoderPropertyBytes);
  }

  /** The running totals of a header. */
  datatype Totals = Totals(folders: nat, coders: nat, streams: nat, packed: nat, substreams: nat, properties: nat)

  ghost function TotalsOf(state: ParseState): Totals
    reads state
  {
    Totals(state.totalFolders, state.totalCoders, state.totalStreams, state.totalPackedStreams, state.totalSubstreams,
           state.totalProperties)
  }

  /** What was read, and the totals afterwards. */
  datatype Run<+T> = Run(value: T, totals: Totals)

  /** The record the bytes dictate, with the totals brought forward, unless the control
      stopped the parser. */
  twostate predicate Runs<T>(reader: BoundedReader, control: ParseControl, state: ParseState,
                             new found: Result<Parsed<Run<T>>>, new r: Result<T>)
    reads reader, control, state
  {
    && reader.Valid()
    && if r.Success? then
         found == Success(Parsed(Run(r.value, TotalsOf(state)), reader.position))
           && control.stopped == old(control.stopped)
       else (Interrupted(r) && control.stopped) || found == Failure(r.error)
  }

  function FoldersAt(bytes: Bytes, p: nat, count: nat, limits: Limits,
                     totals: Totals): (r: Result<Parsed<Run<seq<RawFolder>>>>)
    requires p <= |bytes|
    ensures r.Success? ==>
      p <= r.value.end <= |bytes| && |r.value.value.value| == count && FoldersCounted(r.value.value.value)
    ensures r.Failure? ==> SyntaxFault(r.error)
  {
    if count == 0 then Success(Parsed(Run([], totals), p))
    else
      var before :- FoldersAt(bytes, p, count - 1, limits, totals);
      var folder :- FolderAt(bytes, before.end, limits, before.value.totals.coders, before.value.totals.streams);
      ParsedFolderCounted(bytes, before.end, limits, before.value.totals.coders, before.value.totals.streams);
      Success(Parsed(AddFolder(before.value, folder.value), folder.end))
  }

  function AddFolder(run: Run<seq<RawFolder>>, folder: FolderRun): Run<seq<RawFolder>> {
    Run(run.value + [folder.folder], run.totals.(coders := folder.coders, streams := folder.streams))
  }

  lemma {:induction false} FoldersFail(bytes: Bytes, p: nat, a: nat, b: nat, limits: Limits, totals: Totals)
    requires p <= |bytes| && a <= b && FoldersAt(bytes, p, a, limits, totals).Failure?
    ensures FoldersAt(bytes, p, b, limits, totals) == FoldersAt(bytes, p, a, limits, totals)
    decreases b
  {
    hide FolderAt, FoldersCounted;
    if a < b {
      FoldersFail(bytes, p, a, b - 1, limits, totals);
    }
  }

  method ParseFolders(reader: BoundedReader, count: u64, state: ParseState, limits: Limits, control: ParseControl)
      returns (r: Result<seq<RawFolder>>)
    requires reader.Valid() && |reader.bytes| <= U64_MAX
    modifies reader, state, control
    ensures Runs(reader, control, state,
                 FoldersAt(reader.bytes, old(reader.position), count, limits, old(TotalsOf(state))), r)
  {
    hide FolderAt, FoldersCounted, SyntaxFault;
    SyntaxIsNoInterruption();
    ghost var start, totals := reader.position, TotalsOf(state);
    var folders: seq<RawFolder> := [];
    for i := 0 to count
      invariant reader.Valid() && control.stopped == old(control.stopped)
      invariant FoldersAt(reader.bytes, start, i, limits, totals)
        == Success(Parsed(Run(folders, TotalsOf(state)), reader.position))
    {
      var folder := ParseFolder(reader, state, limits, control);
      if folder.Failure? {
        if !(Interruption(folder.error) && control.stopped) {
          FoldersFail(reader.bytes, start, i + 1, count, limits, totals);
        }
        return Failure(folder.error);
      }
      folders := folders + [folder.value];
    }
    return Success(folders);
  }

  // ----- UnpackInfo.

  /** Folder records in the header itself, or in a stream of their own that they must
      use to the last byte; None if that stream is not known yet. */
  function FolderSourceAt(bytes: Bytes, p: nat, count: nat, limits: Limits, totals: Totals,
                          external: Option<ExternalFolderData>)
      : (r: Result<Parsed<Run<FolderSource>>>)
    requires p <= |bytes|
    ensures r.Success? ==> p <= r.value.end <= |bytes|
    ensures r.Success? && r.value.value.value.Known? ==>
      |r.value.value.value.folders| == count && FoldersCounted(r.value.value.value.folders)
    ensures r.Failure? ==> SyntaxFault(r.error)
  {
    var flag :- U8At(bytes, p);
    if flag.value == 0 then
      var folders :- FoldersAt(bytes, flag.end, count, limits, totals);
      Success(Parsed(Run(Known(folders.value.value), folders.value.totals), folders.end))
    else
      var index :- UintAt(bytes, flag.end);
      if external.None? then Success(Parsed(Run(Elsewhere(index.value), totals), index.end))
      else if external.value.dataIndex != index.value then Failure(Format(ExternalIndexChanged))
      else
        var folders :- FoldersAt(external.value.bytes, 0, count, limits, totals);
        if folders.end != |external.value.bytes| then Failure(Format(Unconsumed))
        else Success(Parsed(Run(Known(folders.value.value), folders.value.totals), index.end))
  }

  datatype FolderSource = Known(folders: seq<RawFolder>) | Elsewhere(dataIndex: u64)

  method ParseFolderSource(reader: BoundedReader, count: u64, state: ParseState, limits: Limits, control: ParseControl,
                           external: Option<ExternalFolderData>)
      returns (r: Result<FolderSource>)
    requires reader.Valid() && |reader.bytes| <= U64_MAX && (external.Some? ==> |external.value.bytes| <= U64_MAX)
    modifies reader, state, control
    ensures Runs(reader, control, state,
                 FolderSourceAt(reader.bytes, old(reader.position), count, limits, old(TotalsOf(state)), external), r)
  {
    hide FoldersAt, FoldersCounted, UintAt, SyntaxFault;
    SyntaxIsNoInterruption();
    var flag :- ReadU8(reader, control);
    if flag == 0 {
      var folders :- ParseFolders(reader, count, state, limits, control);
      return Success(Known(folders));
    }
    var dataIndex :- ReadUint(reader, control);
    if external.None? {
      return Success(Elsewhere(dataIndex));
    }
    if external.value.dataIndex != dataIndex {
      return Failure(Format(ExternalIndexChanged));
    }
    var externalReader := new BoundedReader(external.value.bytes);
    var folders :- ParseFolders(externalReader, count, state, limits, control);
    if externalReader.position != |external.value.bytes| {
      return Failure(Format(Unconsumed));
    }
    return Success(Known(folders));
  }

  /** One list of sizes a folder, as many as it has outputs. */
  function SizedFoldersAt(bytes: Bytes, p: nat, folders: seq<RawFolder>, k: nat): (r: Result<Parsed<seq<RawFolder>>>)
    requires p <= |bytes| && k <= |folders| && FoldersCounted(folders)
    ensures r.Success? ==>
      && p <= r.value.end <= |bytes| && |r.value.value| == k && FoldersCounted(r.value.value)
      && forall f :: f in r.value.value ==> Sized(f)
    ensures r.Failure? ==> SyntaxFault(r.error)
  {
    if k == 0 then Success(Parsed([], p))
    else
      var before :- SizedFoldersAt(bytes, p, folders, k - 1);
      var sizes :- UintsAt(bytes, before.end, folders[k - 1].outputStreams);
      SizesKeepCounts(folders[k - 1], sizes.value);
      Success(Parsed(before.value + [folders[k - 1].(unpackSizes := sizes.value)], sizes.end))
  }

  lemma SizesKeepCounts(f: RawFolder, sizes: seq<u64>)
    ensures FolderCounted(f.(unpackSizes := sizes)) <==> FolderCounted(f)
  {
  }

  lemma {:induction false} SizedFoldersFail(bytes: Bytes, p: nat, folders: seq<RawFolder>, a: nat, b: nat)
    requires p <= |bytes| && a <= b <= |folders| && FoldersCounted(folders)
      && SizedFoldersAt(bytes, p, folders, a).Failure?
    ensures SizedFoldersAt(bytes, p, folders, b) == SizedFoldersAt(bytes, p, folders, a)
    decreases b
  {
    hide FolderCounted, UintsAt;
    if a < b {
      SizedFoldersFail(bytes, p, folders, a, b - 1);
    }
  }

  method ParseUnpackSizes(reader: BoundedReader, folders: seq<RawFolder>, control: ParseControl)
      returns (r: Result<seq<RawFolder>>)
    requires reader.Valid() && FoldersCounted(folders)
    modifies reader, control
    ensures Follows(reader, control, SizedFoldersAt(reader.bytes, old(reader.position), folders, |folders|), r)
  {
    hide FolderCounted, UintsAt, SyntaxFault;
    SyntaxIsNoInterruption();
    ghost var start := reader.position;
    var sized: seq<RawFolder> := [];
    for i := 0 to |folders|
      invariant reader.Valid() && control.stopped == old(control.stopped)
      invariant SizedFoldersAt(reader.bytes, start, folders, i) == Success(Parsed(sized, reader.position))
    {
      var sizes := ParseSizes(reader, folders[i].outputStreams, control);
      if sizes.Failure? {
        if !(Interruption(sizes.error) && control.stopped) {
          SizedFoldersFail(reader.bytes, start, folders, i + 1, |folders|);
        }
        return Failure(sizes.error);
      }
      sized := sized + [folders[i].(unpackSizes := sizes.value)];
    }
    return Success(sized);
  }

  /** Sizes and digests of folders that are known. */
  function UnpackTailAt(bytes: Bytes, p: nat, folders: seq<RawFolder>): (r: Result<Parsed<RawUnpackInfo>>)
    requires p <= |bytes| && FoldersCounted(folders) && 0 < |folders| <= U64_MAX
    ensures r.Success? ==> p <= r.value.end <= |bytes| && UnpackCounted(r.value.value)
    ensures r.Failure? ==> SyntaxFault(r.error)
  {
    var id :- U8At(bytes, p);
    if id.value != ID_CODERS_UNPACK_SIZE then Failure(Format(MissingUnpackSizes))
    else
      var sized :- SizedFoldersAt(bytes, id.end, folders, |folders|);
      var next :- U8At(bytes, sized.end);
      var crcs :- CrcsAt(bytes, next.end, next.value, |folders|);
      if crcs.value.id != ID_END then Failure(Format(UnexpectedIdentifier))
      else Success(Parsed(RawUnpackInfo(sized.value, crcs.value.value), crcs.end))
  }

  method ParseUnpackTail(reader: BoundedReader, folders: seq<RawFolder>, folderCount: u64, control: ParseControl)
      returns (r: Result<RawUnpackInfo>)
    requires reader.Valid() && FoldersCounted(folders) && |folders| == folderCount > 0
    modifies reader, control
    ensures Follows(reader, control, UnpackTailAt(reader.bytes, old(reader.position), folders), r)
  {
    hide FoldersCounted, CrcsAt, SizedFoldersAt, UnpackCounted, SyntaxFault;
    SyntaxIsNoInterruption();
    var id :- ReadU8(reader, control);
    if id != ID_CODERS_UNPACK_SIZE {
      return Failure(Format(MissingUnpackSizes));
    }
    var sized :- ParseUnpackSizes(reader, folders, control);
    id :- ReadU8(reader, control);
    var crcs :- ParseCrcsSection(reader, id, folderCount, control);
    if crcs.id != ID_END {
      return Failure(Format(UnexpectedIdentifier));
    }
    return Success(RawUnpackInfo(sized, crcs.value));
  }

  function UnpackInfoAt(bytes: Bytes, p: nat, limits: Limits, totals: Totals, external: Option<ExternalFolderData>)
      : (r: Result<Parsed<Run<ParsedUnpackInfo>>>)
    requires p <= |bytes|
    ensures r.Success? ==> p <= r.value.end <= |bytes|
    ensures r.Success? && r.value.value.value.CompleteUnpack? ==> UnpackCounted(r.value.value.value.unpack)
    ensures r.Failure? ==> SyntaxFault(r.error)
  {
    var id :- U8At(bytes, p);
    if id.value != ID_FOLDER then Failure(Format(MissingFolder))
    else
      var count :- UintAt(bytes, id.end);
      if count.value == 0 then Failure(Format(ZeroFolders))
      else
        var total :- AddLimited(totals.folders, count.value, limits.maxFolders, TotalFolders);
        var source :- FolderSourceAt(bytes, count.end, count.value, limits, totals.(folders := total), external);
        match source.value.value
        case Elsewhere(index) => Success(Parsed(Run(ExternalUnpack(index), source.value.totals), source.end))
        case Known(folders) =>
          var unpack :- UnpackTailAt(bytes, source.end, folders);
          Success(Parsed(Run(CompleteUnpack(unpack.value), source.value.totals), unpack.end))
  }

  method ParseUnpackInfo(reader: BoundedReader, state: ParseState, limits: Limits, control: ParseControl,
                         external: Option<ExternalFolderData>)
      returns (r: Result<ParsedUnpackInfo>)
    requires reader.Valid() && |reader.bytes| <= U64_MAX && (external.Some? ==> |external.value.bytes| <= U64_MAX)
    modifies reader, state, control
    ensures Runs(reader, control, state,
                 UnpackInfoAt(reader.bytes, old(reader.position), limits, old(TotalsOf(state)), external), r)
  {
    hide FoldersCounted, UintAt, FolderSourceAt, UnpackTailAt, UnpackCounted, SyntaxFault;
    SyntaxIsNoInterruption();
    var id :- ReadU8(reader, control);
    if id != ID_FOLDER {
      return Failure(Format(MissingFolder));
    }
    var folderCount :- ReadUint(reader, control);
    if folderCount == 0 {
      return Failure(Format(ZeroFolders));
    }
    var _ :- state.AddFolders(folderCount, limits);
    var _ :- control.Checkpoint(folderCount);
    var source :- ParseFolderSource(reader, folderCount, state, limits, control, external);
    match source {
      case Elsewhere(dataIndex) =>
        return Success(ExternalUnpack(dataIndex));
      case Known(folders) =>
        var unpack :- ParseUnpackTail(reader, folders, folderCount, control);
        return Success(CompleteUnpack(unpack));
    }
  }

  // ----- PackInfo.

  function PackInfoAt(bytes: Bytes, p: nat, limits: Limits, totals: Totals): (r: Result<Parsed<Run<RawPackInfo>>>)
    requires p <= |bytes|
    ensures r.Success? ==> p <= r.value.end <= |bytes| && PackCounted(r.value.value.value)
    ensures r.Failure? ==> SyntaxFault(r.error)
  {
    var position :- UintAt(bytes, p);
    var streams :- UintAt(bytes, position.end);
    if streams.value == 0 then Failure(Format(ZeroPackedStreams))
    else
      var total :- AddLimited(totals.packed, streams.value, limits.maxTotalStreams, TotalStreams);
      var id :- U8At(bytes, streams.end);
      var sizes :- SizesAt(bytes, id.end, id.value, streams.value);
      var crcs :- CrcsAt(bytes, sizes.end, sizes.value.id, streams.value);
      if crcs.value.id != ID_END then Failure(Format(UnexpectedIdentifier))
      else
        var pack := RawPackInfo(position.value, streams.value, sizes.value.value, crcs.value.value);
        Success(Parsed(Run(pack, totals.(packed := total)), crcs.end))
  }

  method ParsePackInfo(reader: BoundedReader, state: ParseState, limits: Limits, control: ParseControl)
      returns (r: Result<RawPackInfo>)
    requires reader.Valid()
    modifies reader, state, control
    ensures Runs(reader, control, state, PackInfoAt(reader.bytes, old(reader.position), limits, old(TotalsOf(state))),
                 r)
  {
    hide UintAt, CrcsAt, SizesAt, SyntaxFault;
    SyntaxIsNoInterruption();
    var position :- ReadUint(reader, control);
    var streams :- ReadUint(reader, control);
    if streams == 0 {
      return Failure(Format(ZeroPackedStreams));
    }
    var _ :- state.AddPackedStreams(streams, limits);
    var id :- ReadU8(reader, control);
    var sizes :- ParseSizesSection(reader, id, streams, control);
    var crcs :- ParseCrcsSection(reader, sizes.id, streams, control);
    if crcs.id != ID_END {
      return Failure(Format(UnexpectedIdentifier));
    }
    return Success(RawPackInfo(position, streams, sizes.value, crcs.value));
  }

  // ----- The whole record.

  datatype Tail = Tail(substreams: Option<RawSubstreams>, id: u8)

  /** The substreams record, or the default of one substream a folder. */
  function SubstreamsOrDefaultAt(bytes: Bytes, p: nat, id: u8, unpack: Option<RawUnpackInfo>, limits: Limits,
                                 totals: Totals)
      : (r: Result<Parsed<Run<Tail>>>)
    requires p <= |bytes|
    ensures r.Success? ==> p <= r.value.end <= |bytes|
    ensures r.Success? && r.value.value.value.substreams.Some? ==>
      unpack.Some? && CountsAgree(r.value.value.value.substreams.value, |unpack.value.folders|, unpack.value.crcs)
    ensures r.Failure? ==> SyntaxFault(r.error)
  {
    if id != ID_SUBSTREAMS_INFO then
      if unpack.None? then Success(Parsed(Run(Tail(None, id), totals), p))
      else
        var total :- AddLimited(totals.substreams, |unpack.value.folders|, limits.maxSubstreams, Substreams);
        Success(Parsed(Run(Tail(None, id), totals.(substreams := total)), p))
    else if unpack.None? then Failure(Format(SubstreamsWithoutUnpackInfo))
    else
      var run :- SubstreamsAt(bytes, p, |unpack.value.folders|, unpack.value.crcs, limits, totals.substreams);
      var next :- U8At(bytes, run.end);
      Success(Parsed(Run(Tail(Some(run.value.substreams), next.value), totals.(substreams := run.value.total)), next.end))
  }

  method ParseSubstreamsOrDefault(reader: BoundedReader, id: u8, unpack: Option<RawUnpackInfo>, state: ParseState,
                                  limits: Limits, control: ParseControl)
      returns (r: Result<Tail>)
    requires reader.Valid()
    modifies reader, state, control
    ensures Runs(reader, control, state,
                 SubstreamsOrDefaultAt(reader.bytes, old(reader.position), id, unpack, limits, old(TotalsOf(state))), r)
  {
    hide SubstreamsAt, CountsAgree, SyntaxFault;
    SyntaxIsNoInterruption();
    if id != ID_SUBSTREAMS_INFO {
      if unpack.Some? {
        var _ :- state.AddSubstreams(|unpack.value.folders|, limits);
      }
      return Success(Tail(None, id));
    }
    if unpack.None? {
      return Failure(Format(SubstreamsWithoutUnpackInfo));
    }
    var substreams :- ParseSubstreamsInfo(reader, unpack.value, state, limits, control);
    var next :- ReadU8(reader, control);
    return Success(Tail(Some(substreams), next));
  }

  /** PackInfo, if the identifier announces it, and the identifier after it. */
  function PackStageAt(bytes: Bytes, p: nat, limits: Limits,
                       totals: Totals): (r: Result<Parsed<Run<Section<Option<RawPackInfo>>>>>)
    requires p <= |bytes|
    ensures r.Success? ==> p <= r.value.end <= |bytes|
    ensures r.Success? && r.value.value.value.value.Some? ==> PackCounted(r.value.value.value.value.value)
    ensures r.Failure? ==> SyntaxFault(r.error)
  {
    var id :- U8At(bytes, p);
    if id.value != ID_PACK_INFO then Success(Parsed(Run(Section(None, id.value), totals), id.end))
    else
      var pack :- PackInfoAt(bytes, id.end, limits, totals);
      var next :- U8At(bytes, pack.end);
      Success(Parsed(Run(Section(Some(pack.value.value), next.value), pack.value.totals), next.end))
  }

  method ParsePackStage(reader: BoundedReader, state: ParseState, limits: Limits, control: ParseControl)
      returns (r: Result<Section<Option<RawPackInfo>>>)
    requires reader.Valid()
    modifies reader, state, control
    ensures Runs(reader, control, state, PackStageAt(reader.bytes, old(reader.position), limits, old(TotalsOf(state))),
                 r)
  {
    hide PackInfoAt, PackCounted, SyntaxFault;
    SyntaxIsNoInterruption();
    var id :- ReadU8(reader, control);
    if id != ID_PACK_INFO {
      return Success(Section(None, id));
    }
    var pack :- ParsePackInfo(reader, state, limits, control);
    var next :- ReadU8(reader, control);
    return Success(Section(Some(pack), next));
  }

  /** UnpackInfo and what follows it. */
  function RestAt(bytes: Bytes, p: nat, pack: Option<RawPackInfo>, id: u8, limits: Limits, totals: Totals,
                  external: Option<ExternalFolderData>)
      : (r: Result<Parsed<Run<ParsedStreamsInfo>>>)
    requires p <= |bytes| && (pack.Some? ==> PackCounted(pack.value))
    ensures r.Success? ==> p <= r.value.end <= |bytes|
    ensures r.Success? && r.value.value.value.Complete? ==> Counted(r.value.value.value.raw)
    ensures r.Failure? ==> SyntaxFault(r.error)
  {
    if id != ID_UNPACK_INFO then EndAt(bytes, p, pack, None, id, limits, totals)
    else
      var unpack :- UnpackInfoAt(bytes, p, limits, totals, external);
      match unpack.value.value
      case ExternalUnpack(index) => Success(Parsed(Run(External(pack, index), unpack.value.totals), unpack.end))
      case CompleteUnpack(info) =>
        var next :- U8At(bytes, unpack.end);
        EndAt(bytes, next.end, pack, Some(info), next.value, limits, unpack.value.totals)
  }

  function EndAt(bytes: Bytes, p: nat, pack: Option<RawPackInfo>, unpack: Option<RawUnpackInfo>, id: u8, limits: Limits,
                 totals: Totals)
      : (r: Result<Parsed<Run<ParsedStreamsInfo>>>)
    requires p <= |bytes| && (pack.Some? ==> PackCounted(pack.value)) && (unpack.Some? ==> UnpackCounted(unpack.value))
    ensures r.Success? ==>
      p <= r.value.end <= |bytes| && r.value.value.value.Complete? && Counted(r.value.value.value.raw)
    ensures r.Failure? ==> SyntaxFault(r.error)
  {
    var tail :- SubstreamsOrDefaultAt(bytes, p, id, unpack, limits, totals);
    if tail.value.value.id != ID_END then Failure(Format(UnexpectedIdentifier))
    else
      var raw := RawStreamsInfo(pack, unpack, tail.value.value.substreams);
      Success(Parsed(Run(Complete(raw), tail.value.totals), tail.end))
  }

  function StreamsInfoAt(bytes: Bytes, p: nat, limits: Limits, totals: Totals, external: Option<ExternalFolderData>)
      : (r: Result<Parsed<Run<ParsedStreamsInfo>>>)
    requires p <= |bytes|
    ensures r.Success? ==> p <= r.value.end <= |bytes|
    ensures r.Success? && r.value.value.value.Complete? ==> Counted(r.value.value.value.raw)
    ensures r.Failure? ==> SyntaxFault(r.error)
  {
    var pack :- PackStageAt(bytes, p, limits, totals);
    RestAt(bytes, pack.end, pack.value.value.value, pack.value.value.id, limits, pack.value.totals, external)
  }

  method ParseEnd(reader: BoundedReader, pack: Option<RawPackInfo>, unpack: Option<RawUnpackInfo>, id: u8,
                  state: ParseState, limits: Limits, control: ParseControl)
      returns (r: Result<ParsedStreamsInfo>)
    requires reader.Valid() && (pack.Some? ==> PackCounted(pack.value))
      && (unpack.Some? ==> UnpackCounted(unpack.value))
    modifies reader, state, control
    ensures Runs(reader, control, state,
                 EndAt(reader.bytes, old(reader.position), pack, unpack, id, limits, old(TotalsOf(state))), r)
  {
    hide PackCounted, UnpackCounted, CountsAgree, SubstreamsOrDefaultAt, SyntaxFault;
    SyntaxIsNoInterruption();
    var tail :- ParseSubstreamsOrDefault(reader, id, unpack, state, limits, control);
    if tail.id != ID_END {
      return Failure(Format(UnexpectedIdentifier));
    }
    return Success(Complete(RawStreamsInfo(pack, unpack, tail.substreams)));
  }

  method ParseStreamsInfo(reader: BoundedReader, state: ParseState, limits: Limits, control: ParseControl,
                          external: Option<ExternalFolderData>)
      returns (r: Result<ParsedStreamsInfo>)
    requires reader.Valid() && |reader.bytes| <= U64_MAX && (external.Some? ==> |external.value.bytes| <= U64_MAX)
    modifies reader, state, control
    ensures Runs(reader, control, state,
                 StreamsInfoAt(reader.bytes, old(reader.position), limits, old(TotalsOf(state)), external), r)
    ensures r.Success? && r.value.Complete? ==> Counted(r.value.raw)
  {
    hide PackStageAt, UnpackInfoAt, EndAt, PackCounted, UnpackCounted, Counted, SyntaxFault;
    SyntaxIsNoInterruption();
    var pack :- ParsePackStage(reader, state, limits, control);
    if pack.id != ID_UNPACK_INFO {
      r := ParseEnd(reader, pack.value, None, pack.id, state, limits, control);
      return;
    }
    var unpack :- ParseUnpackInfo(reader, state, limits, control, external);
    match unpack {
      case ExternalUnpack(index) =>
        return Success(External(pack.value, index));
      case CompleteUnpack(info) =>
        var next :- ReadU8(reader, control);
        r := ParseEnd(reader, pack.value, Some(info), next, state, limits, control);
    }
  }
}
