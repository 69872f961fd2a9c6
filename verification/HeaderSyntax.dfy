/** The body of a next header: property lists, the two stream sections and the file
    list, each read where its identifier announces it. */
module HeaderSyntax {
  import opened Support
  import opened Bounded
  import opened Model
  import opened Reading
  import opened FolderSyntax
  import opened SubstreamSyntax
  import opened StreamSyntax

  const ID_HEADER: u8 := 0x01
  const ID_ARCHIVE_PROPERTIES: u8 := 0x02
  const ID_ADDITIONAL_STREAMS_INFO: u8 := 0x03
  const ID_MAIN_STREAMS_INFO: u8 := 0x04
  const ID_FILES_INFO: u8 := 0x05
  const ID_ENCODED_HEADER: u8 := 0x17

  datatype RawProperty = RawProperty(id: u8, data: Bytes)

  datatype RawFilesInfo = RawFilesInfo(count: u64, properties: seq<RawProperty>)

  datatype RawHeader = RawHeader(
    archiveProperties: seq<RawProperty>,
    additional: Option<RawStreamsInfo>,
    main: Option<RawStreamsInfo>,
    files: Option<RawFilesInfo>)

  /** A header whose main folders stand in a stream that is not decoded yet. */
  datatype RawPending = RawPending(additional: RawStreamsInfo, mainPack: Option<RawPackInfo>, dataIndex: u64,
                                   headerBytes: Bytes)

  datatype RawNextHeader =
    | Header(header: RawHeader)
    | Encoded(streams: RawStreamsInfo)
    | ExternalFolders(pending: RawPending)

  // ----- What every parsed header satisfies.

  predicate SectionCounted(section: Option<RawStreamsInfo>) {
    section.Some? ==> Counted(section.value)
  }

  predicate StoredProperties(properties: seq<RawProperty>) {
    |properties| <= U64_MAX && forall q :: q in properties ==> |q.data| <= U64_MAX
  }

  predicate HeaderCounted(h: RawHeader) {
    && SectionCounted(h.additional) && SectionCounted(h.main) && StoredProperties(h.archiveProperties)
    && (h.files.Some? ==> StoredProperties(h.files.value.properties))
  }

  predicate PendingCounted(h: RawPending) {
    Counted(h.additional) && (h.mainPack.Some? ==> PackCounted(h.mainPack.value))
  }

  predicate NextCounted(raw: RawNextHeader) {
    match raw
    case Header(h) => HeaderCounted(h)
    case Encoded(streams) => Counted(streams)
    case ExternalFolders(pending) => PendingCounted(pending)
  }

  /** A pending header keeps its bytes, to be parsed again later. */
  predicate Keeps(raw: RawNextHeader, bytes: Bytes) {
    raw.ExternalFolders? ==> raw.pending.headerBytes == bytes
  }

  // ----- Property lists.

  function PropertyAt(bytes: Bytes, p: nat, id: u8, limits: Limits,
                      totals: Totals): (r: Result<Parsed<Run<RawProperty>>>)
    requires p <= |bytes|
    ensures r.Success? ==> p <= r.value.end <= |bytes| && |r.value.value.value.data| <= U64_MAX
    ensures r.Failure? ==> SyntaxFault(r.error)
  {
    var total :- AddLimited(totals.properties, 1, limits.maxHeaderProperties, HeaderProperties);
    var length :- UintAt(bytes, p);
    var _ :- CheckLimit(length.value, limits.maxHeaderBytes, HeaderBytes);
    var data :- BytesAt(bytes, length.end, length.value);
    Success(Parsed(Run(RawProperty(id, data.value), totals.(properties := total)), data.end))
  }

  method ParseProperty(reader: BoundedReader, id: u8, state: ParseState, limits: Limits, control: ParseControl)
      returns (r: Result<RawProperty>)
    requires reader.Valid() && |reader.bytes| <= U64_MAX
    modifies reader, state, control
    ensures Runs(reader, control, state,
                 PropertyAt(reader.bytes, old(reader.position), id, limits, old(TotalsOf(state))), r)
  {
    hide UintAt, BytesAt, SyntaxFault;
    SyntaxIsNoInterruption();
    var _ :- state.AddProperty(limits);
    var length :- ReadUint(reader, control);
    var _ :- CheckLimit(length, limits.maxHeaderBytes, HeaderBytes);
    var data :- ReadBytes(reader, length, control);
    return Success(RawProperty(id, data));
  }

  /** Properties up to the end identifier. */
  function PropertyListAt(bytes: Bytes, p: nat, limits: Limits,
                          totals: Totals): (r: Result<Parsed<Run<seq<RawProperty>>>>)
    requires p <= |bytes|
    ensures r.Success? ==> p <= r.value.end <= |bytes| && StoredProperties(r.value.value.value)
    ensures r.Success? ==>
      && r.value.value.totals.properties == totals.properties + |r.value.value.value|
      && (|r.value.value.value| > 0 ==> r.value.value.totals.properties <= U64_MAX)
    ensures r.Failure? ==> SyntaxFault(r.error)
    decreases |bytes| - p
  {
    var id :- U8At(bytes, p);
    if id.value == ID_END then Success(Parsed(Run([], totals), id.end))
    else
      var property :- PropertyAt(bytes, id.end, id.value, limits, totals);
      After([property.value.value], PropertyListAt(bytes, property.end, limits, property.value.totals))
  }

  function After<T>(before: seq<T>, rest: Result<Parsed<Run<seq<T>>>>): Result<Parsed<Run<seq<T>>>> {
    if rest.Failure? then rest
    else Success(Parsed(Run(before + rest.value.value.value, rest.value.value.totals), rest.value.end))
  }

  lemma AfterNothing<T>(rest: Result<Parsed<Run<seq<T>>>>)
    ensures After([], rest) == rest
  {
    if rest.Success? {
      assert [] + rest.value.value.value == rest.value.value.value;
    }
  }

  lemma AfterBoth<T>(a: seq<T>, b: seq<T>, rest: Result<Parsed<Run<seq<T>>>>)
    ensures After(a, After(b, rest)) == After(a + b, rest)
  {
    if rest.Success? {
      assert a + (b + rest.value.value.value) == (a + b) + rest.value.value.value;
    }
  }

  method ParsePropertyList(reader: BoundedReader, state: ParseState, limits: Limits, control: ParseControl)
      returns (r: Result<seq<RawProperty>>)
    requires reader.Valid() && |reader.bytes| <= U64_MAX
    modifies reader, state, control
    ensures Runs(reader, control, state,
                 PropertyListAt(reader.bytes, old(reader.position), limits, old(TotalsOf(state))), r)
  {
    hide PropertyAt, SyntaxFault, StoredProperties, After;
    SyntaxIsNoInterruption();
    ghost var found := PropertyListAt(reader.bytes, reader.position, limits, TotalsOf(state));
    AfterNothing(found);
    var properties: seq<RawProperty> := [];
    while true
      invariant reader.Valid() && control.stopped == old(control.stopped)
      invariant found == After(properties, PropertyListAt(reader.bytes, reader.position, limits, TotalsOf(state)))
      decreases |reader.bytes| - reader.position
    {
      ghost var p, totals := reader.position, TotalsOf(state);
      ListFails(properties, reader.bytes, p, limits, totals);
      var id :- ReadU8(reader, control);
      if id == ID_END {
        return Success(properties);
      }
      var property :- ParseProperty(reader, id, state, limits, control);
      ListGoesOn(properties, reader.bytes, p, limits, totals, property);
      properties := properties + [property];
    }
  }

  /** What the next byte and the property after it decide about the list. */
  lemma ListFails(before: seq<RawProperty>, bytes: Bytes, p: nat, limits: Limits, totals: Totals)
    requires p <= |bytes|
    ensures
      var found := After(before, PropertyListAt(bytes, p, limits, totals));
      var id := U8At(bytes, p);
      && (id.Failure? ==> found == Failure(id.error))
      && (id.Success? && id.value.value == ID_END ==> found == Success(Parsed(Run(before, totals), id.value.end)))
      && (id.Success? && id.value.value != ID_END ==>
            var property := PropertyAt(bytes, id.value.end, id.value.value, limits, totals);
            property.Failure? ==> found == Failure(property.error))
  {
    hide PropertyAt, SyntaxFault, StoredProperties;
    assert before + [] == before;
  }

  lemma ListGoesOn(before: seq<RawProperty>, bytes: Bytes, p: nat, limits: Limits, totals: Totals,
                   property: RawProperty)
    requires p < |bytes| && bytes[p] != ID_END
    requires
      var found := PropertyAt(bytes, p + 1, bytes[p], limits, totals);
      found.Success? && found.value.value.value == property
    ensures
      var found := PropertyAt(bytes, p + 1, bytes[p], limits, totals).value;
      After(before, PropertyListAt(bytes, p, limits, totals))
        == After(before + [property], PropertyListAt(bytes, found.end, limits, found.value.totals))
  {
    hide PropertyAt, SyntaxFault, StoredProperties, After;
    var found := PropertyAt(bytes, p + 1, bytes[p], limits, totals).value;
    AfterBoth(before, [property], PropertyListAt(bytes, found.end, limits, found.value.totals));
  }

  // ----- The file list.

  function FilesInfoAt(bytes: Bytes, p: nat, limits: Limits, totals: Totals): (r: Result<Parsed<Run<RawFilesInfo>>>)
    requires p <= |bytes|
    ensures r.Success? ==> p <= r.value.end <= |bytes| && StoredProperties(r.value.value.value.properties)
    ensures r.Failure? ==> SyntaxFault(r.error)
  {
    var count :- UintAt(bytes, p);
    var _ :- CheckLimit(count.value, limits.maxFiles, Files);
    var list :- PropertyListAt(bytes, count.end, limits, totals);
    Success(Parsed(Run(RawFilesInfo(count.value, list.value.value), list.value.totals), list.end))
  }

  method ParseFilesInfo(reader: BoundedReader, state: ParseState, limits: Limits, control: ParseControl)
      returns (r: Result<RawFilesInfo>)
    requires reader.Valid() && |reader.bytes| <= U64_MAX
    modifies reader, state, control
    ensures Runs(reader, control, state, FilesInfoAt(reader.bytes, old(reader.position), limits, old(TotalsOf(state))),
                 r)
  {
    hide UintAt, PropertyListAt, SyntaxFault, StoredProperties;
    SyntaxIsNoInterruption();
    var count :- ReadUint(reader, control);
    var _ :- CheckLimit(count, limits.maxFiles, Files);
    var properties :- ParsePropertyList(reader, state, limits, control);
    return Success(RawFilesInfo(count, properties));
  }

  // ----- The stages of the body, each with the identifier after it.

  function ArchiveStageAt(bytes: Bytes, p: nat, limits: Limits, totals: Totals)
      : (r: Result<Parsed<Run<Section<seq<RawProperty>>>>>)
    requires p <= |bytes|
    ensures r.Success? ==> p <= r.value.end <= |bytes| && StoredProperties(r.value.value.value.value)
    ensures r.Failure? ==> SyntaxFault(r.error)
  {
    var id :- U8At(bytes, p);
    if id.value != ID_ARCHIVE_PROPERTIES then Success(Parsed(Run(Section([], id.value), totals), id.end))
    else
      var list :- PropertyListAt(bytes, id.end, limits, totals);
      var next :- U8At(bytes, list.end);
      Success(Parsed(Run(Section(list.value.value, next.value), list.value.totals), next.end))
  }

  method ParseArchiveStage(reader: BoundedReader, state: ParseState, limits: Limits, control: ParseControl)
      returns (r: Result<Section<seq<RawProperty>>>)
    requires reader.Valid() && |reader.bytes| <= U64_MAX
    modifies reader, state, control
    ensures Runs(reader, control, state,
                 ArchiveStageAt(reader.bytes, old(reader.position), limits, old(TotalsOf(state))), r)
  {
    hide PropertyListAt, SyntaxFault, StoredProperties;
    SyntaxIsNoInterruption();
    var id :- ReadU8(reader, control);
    if id != ID_ARCHIVE_PROPERTIES {
      return Success(Section([], id));
    }
    var properties :- ParsePropertyList(reader, state, limits, control);
    id :- ReadU8(reader, control);
    return Success(Section(properties, id));
  }

  /** The additional streams cannot keep their own folder records in themselves. */
  function AdditionalStageAt(bytes: Bytes, p: nat, id: u8, limits: Limits, totals: Totals)
      : (r: Result<Parsed<Run<Section<Option<RawStreamsInfo>>>>>)
    requires p <= |bytes|
    ensures r.Success? ==> p <= r.value.end <= |bytes| && SectionCounted(r.value.value.value.value)
    ensures r.Failure? ==> SyntaxFault(r.error)
  {
    if id != ID_ADDITIONAL_STREAMS_INFO then Success(Parsed(Run(Section(None, id), totals), p))
    else
      var streams :- StreamsInfoAt(bytes, p, limits, totals, None);
      if streams.value.value.External? then Failure(Format(FolderSourceMissing))
      else
        var next :- U8At(bytes, streams.end);
        Success(Parsed(Run(Section(Some(streams.value.value.raw), next.value), streams.value.totals), next.end))
  }

  method ParseAdditionalStage(reader: BoundedReader, id: u8, state: ParseState, limits: Limits, control: ParseControl)
      returns (r: Result<Section<Option<RawStreamsInfo>>>)
    requires reader.Valid() && |reader.bytes| <= U64_MAX
    modifies reader, state, control
    ensures Runs(reader, control, state,
                 AdditionalStageAt(reader.bytes, old(reader.position), id, limits, old(TotalsOf(state))), r)
  {
    hide StreamsInfoAt, SyntaxFault, Counted;
    SyntaxIsNoInterruption();
    if id != ID_ADDITIONAL_STREAMS_INFO {
      return Success(Section(None, id));
    }
    var streams :- ParseStreamsInfo(reader, state, limits, control, None);
    if streams.External? {
      return Failure(Format(FolderSourceMissing));
    }
    var next :- ReadU8(reader, control);
    return Success(Section(Some(streams.raw), next));
  }

  function FilesStageAt(bytes: Bytes, p: nat, id: u8, limits: Limits, totals: Totals)
      : (r: Result<Parsed<Run<Option<RawFilesInfo>>>>)
    requires p <= |bytes|
    ensures r.Success? ==> p <= r.value.end <= |bytes|
    ensures r.Success? && r.value.value.value.Some? ==> StoredProperties(r.value.value.value.value.properties)
    ensures r.Failure? ==> SyntaxFault(r.error)
  {
    if id != ID_FILES_INFO then
      if id != ID_END then Failure(Format(UnexpectedIdentifier)) else Success(Parsed(Run(None, totals), p))
    else
      var files :- FilesInfoAt(bytes, p, limits, totals);
      var next :- U8At(bytes, files.end);
      if next.value != ID_END then Failure(Format(UnexpectedIdentifier))
      else Success(Parsed(Run(Some(files.value.value), files.value.totals), next.end))
  }

  method ParseFilesStage(reader: BoundedReader, id: u8, state: ParseState, limits: Limits, control: ParseControl)
      returns (r: Result<Option<RawFilesInfo>>)
    requires reader.Valid() && |reader.bytes| <= U64_MAX
    modifies reader, state, control
    ensures Runs(reader, control, state,
                 FilesStageAt(reader.bytes, old(reader.position), id, limits, old(TotalsOf(state))), r)
  {
    hide FilesInfoAt, SyntaxFault, StoredProperties;
    SyntaxIsNoInterruption();
    var last, files := id, None;
    if id == ID_FILES_INFO {
      var info :- ParseFilesInfo(reader, state, limits, control);
      files := Some(info);
      last :- ReadU8(reader, control);
    }
    if last != ID_END {
      return Failure(Format(UnexpectedIdentifier));
    }
    return Success(files);
  }

  /** The main streams and what follows them; the header stays pending when their
      folder records are in a stream still to be decoded. */
  function MainStageAt(bytes: Bytes, p: nat, id: u8, properties: seq<RawProperty>, additional: Option<RawStreamsInfo>,
                       limits: Limits, totals: Totals, external: Option<ExternalFolderData>)
      : (r: Result<Parsed<Run<RawNextHeader>>>)
    requires p <= |bytes| && StoredProperties(properties) && SectionCounted(additional)
    ensures r.Success? ==>
      p <= r.value.end <= |bytes| && NextCounted(r.value.value.value) && Keeps(r.value.value.value, bytes)
    ensures r.Failure? ==> SyntaxFault(r.error)
  {
    if id != ID_MAIN_STREAMS_INFO then LastStageAt(bytes, p, id, properties, additional, None, limits, totals)
    else
      var streams :- StreamsInfoAt(bytes, p, limits, totals, external);
      match streams.value.value
      case External(pack, dataIndex) =>
        if additional.None? then Failure(Format(FolderSourceMissing))
        else Success(Parsed(Run(ExternalFolders(RawPending(additional.value, pack, dataIndex, bytes)), streams.value.totals), streams.end))
      case Complete(main) =>
        var next :- U8At(bytes, streams.end);
        LastStageAt(bytes, next.end, next.value, properties, additional, Some(main), limits, streams.value.totals)
  }

  function LastStageAt(bytes: Bytes, p: nat, id: u8, properties: seq<RawProperty>, additional: Option<RawStreamsInfo>,
                       main: Option<RawStreamsInfo>, limits: Limits, totals: Totals)
      : (r: Result<Parsed<Run<RawNextHeader>>>)
    requires p <= |bytes| && StoredProperties(properties) && SectionCounted(additional) && SectionCounted(main)
    ensures r.Success? ==>
      p <= r.value.end <= |bytes| && NextCounted(r.value.value.value) && Keeps(r.value.value.value, bytes)
    ensures r.Failure? ==> SyntaxFault(r.error)
  {
    var files :- FilesStageAt(bytes, p, id, limits, totals);
    Success(Parsed(Run(Header(RawHeader(properties, additional, main, files.value.value)), files.value.totals), files.end))
  }

  method ParseLastStage(reader: BoundedReader, id: u8, properties: seq<RawProperty>, additional: Option<RawStreamsInfo>,
                        main: Option<RawStreamsInfo>, state: ParseState, limits: Limits, control: ParseControl)
      returns (r: Result<RawNextHeader>)
    requires reader.Valid() && |reader.bytes| <= U64_MAX
    requires StoredProperties(properties) && SectionCounted(additional) && SectionCounted(main)
    modifies reader, state, control
    ensures Runs(reader, control, state,
                 LastStageAt(reader.bytes, old(reader.position), id, properties, additional, main, limits,
                             old(TotalsOf(state))), r)
  {
    hide FilesStageAt, SyntaxFault, StoredProperties, SectionCounted;
    SyntaxIsNoInterruption();
    var files :- ParseFilesStage(reader, id, state, limits, control);
    return Success(Header(RawHeader(properties, additional, main, files)));
  }

  method ParseMainStage(reader: BoundedReader, id: u8, properties: seq<RawProperty>, additional: Option<RawStreamsInfo>,
                        state: ParseState, limits: Limits, control: ParseControl, external: Option<ExternalFolderData>)
      returns (r: Result<RawNextHeader>)
    requires reader.Valid() && |reader.bytes| <= U64_MAX && (external.Some? ==> |external.value.bytes| <= U64_MAX)
    requires StoredProperties(properties) && SectionCounted(additional)
    modifies reader, state, control
    ensures Runs(reader, control, state,
                 MainStageAt(reader.bytes, old(reader.position), id, properties, additional, limits,
                             old(TotalsOf(state)), external), r)
  {
    hide StreamsInfoAt, LastStageAt, SyntaxFault, StoredProperties, Counted;
    SyntaxIsNoInterruption();
    if id != ID_MAIN_STREAMS_INFO {
      r := ParseLastStage(reader, id, properties, additional, None, state, limits, control);
      return;
    }
    var streams :- ParseStreamsInfo(reader, state, limits, control, external);
    match streams {
      case External(pack, dataIndex) =>
        if additional.None? {
          return Failure(Format(FolderSourceMissing));
        }
        return Success(ExternalFolders(RawPending(additional.value, pack, dataIndex, reader.bytes)));
      case Complete(main) =>
        var next :- ReadU8(reader, control);
        r := ParseLastStage(reader, next, properties, additional, Some(main), state, limits, control);
    }
  }

  function HeaderBodyAt(bytes: Bytes, p: nat, limits: Limits, totals: Totals, external: Option<ExternalFolderData>)
      : (r: Result<Parsed<Run<RawNextHeader>>>)
    requires p <= |bytes|
    ensures r.Success? ==>
      p <= r.value.end <= |bytes| && NextCounted(r.value.value.value) && Keeps(r.value.value.value, bytes)
    ensures r.Failure? ==> SyntaxFault(r.error)
  {
    var archive :- ArchiveStageAt(bytes, p, limits, totals);
    var additional :- AdditionalStageAt(bytes, archive.end, archive.value.value.id, limits, archive.value.totals);
    MainStageAt(bytes, additional.end, additional.value.value.id, archive.value.value.value,
                additional.value.value.value, limits, additional.value.totals, external)
  }

  method ParseHeaderBody(reader: BoundedReader, state: ParseState, limits: Limits, control: ParseControl,
                         external: Option<ExternalFolderData>)
      returns (r: Result<RawNextHeader>)
    requires reader.Valid() && |reader.bytes| <= U64_MAX && (external.Some? ==> |external.value.bytes| <= U64_MAX)
    modifies reader, state, control
    ensures Runs(reader, control, state,
                 HeaderBodyAt(reader.bytes, old(reader.position), limits, old(TotalsOf(state)), external), r)
  {
    hide ArchiveStageAt, AdditionalStageAt, MainStageAt, SyntaxFault, StoredProperties, SectionCounted;
    SyntaxIsNoInterruption();
    var archive :- ParseArchiveStage(reader, state, limits, control);
    var additional :- ParseAdditionalStage(reader, archive.id, state, limits, control);
    r := ParseMainStage(reader, additional.id, archive.value, additional.value, state, limits, control, external);
  }

  // ----- The whole next header.

  const NO_TOTALS: Totals := Totals(0, 0, 0, 0, 0, 0)

  /** A header must use its bytes to the last, unless its folders are still to come. */
  function NextHeaderAt(bytes: Bytes, limits: Limits, external: Option<ExternalFolderData>): (r: Result<RawNextHeader>)
    ensures r.Success? ==> NextCounted(r.value) && Keeps(r.value, bytes)
    ensures r.Failure? ==> SyntaxFault(r.error)
  {
    var _ :- CheckLimit(1, limits.maxRecursionDepth, RecursionDepth);
    var kind :- U8At(bytes, 0);
    if kind.value == ID_HEADER then
      var body :- HeaderBodyAt(bytes, kind.end, limits, NO_TOTALS, external);
      if body.value.value.ExternalFolders? || body.end == |bytes| then Success(body.value.value)
      else Failure(Format(Unconsumed))
    else if kind.value == ID_ENCODED_HEADER then
      var streams :- StreamsInfoAt(bytes, kind.end, limits, NO_TOTALS, None);
      if streams.value.value.External? then Failure(Format(FolderSourceMissing))
      else if streams.end != |bytes| then Failure(Format(Unconsumed))
      else Success(Encoded(streams.value.value.raw))
    else Failure(Format(UnexpectedIdentifier))
  }

  method ParseNextHeader(bytes: Bytes, limits: Limits, control: ParseControl, external: Option<ExternalFolderData>)
      returns (r: Result<RawNextHeader>)
    requires |bytes| <= U64_MAX && (external.Some? ==> |external.value.bytes| <= U64_MAX)
    modifies control
    ensures (Interrupted(r) && control.stopped) || r == NextHeaderAt(bytes, limits, external)
    ensures r.Success? ==> NextCounted(r.value) && Keeps(r.value, bytes)
    ensures r.Failure? ==> Interruption(r.error) || SyntaxFault(r.error)
  {
    hide HeaderBodyAt, StreamsInfoAt, SyntaxFault, NextCounted;
    SyntaxIsNoInterruption();
    var _ :- CheckLimit(1, limits.maxRecursionDepth, RecursionDepth);
    var state := new ParseState();
    var reader := new BoundedReader(bytes);
    var kind :- ReadU8(reader, control);
    if kind == ID_HEADER {
      var next :- ParseHeaderBody(reader, state, limits, control, external);
      if next.ExternalFolders? {
        return Success(next);
      }
      if reader.position != |bytes| {
        return Failure(Format(Unconsumed));
      }
      return Success(next);
    }
    if kind != ID_ENCODED_HEADER {
      return Failure(Format(UnexpectedIdentifier));
    }
    var streams :- ParseStreamsInfo(reader, state, limits, control, None);
    if streams.External? {
      return Failure(Format(FolderSourceMissing));
    }
    if reader.position != |bytes| {
      return Failure(Format(Unconsumed));
    }
    return Success(Encoded(streams.raw));
  }
}
