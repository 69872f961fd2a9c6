/** Which stream each file of a 7z header gets: the k-th file with a stream takes
    the k-th substream, counting folder by folder. */
module FileMapping {
  import opened Support
  import opened Sequences
  import opened Bounded
  import opened Folders
  import opened SubstreamSyntax
  import opened FolderValidation
  import opened HeaderSyntax
  import opened HeaderValidation
  import opened FileDetails
  import opened Names

  datatype FileStream = FileStream(folder: nat, substream: nat, size: Option<u64>, crc: Option<bv32>)

  /** What a file list keeps of each file besides its name and stream. */
  datatype Stamps<+T> = Stamps(creation: T, access: T, modification: T, attributes: T, startPosition: T)

  datatype FileEntry = FileEntry(
    rawName: Option<Name>,
    hasStream: bool,
    isEmptyFile: bool,
    isAnti: bool,
    stamps: Stamps<Option<u64>>,
    stream: Option<FileStream>)

  // ----- The substreams, folder by folder.

  function StreamOf(folders: seq<Folder>, i: nat, j: nat): FileStream
    requires i < |folders| && j < |folders[i].substreams|
  {
    FileStream(i, j, folders[i].substreams[j].size, folders[i].substreams[j].crc)
  }

  function Row(folders: seq<Folder>, i: nat, n: nat): (row: seq<FileStream>)
    requires i < |folders| && n <= |folders[i].substreams|
    ensures |row| == n
  {
    seq(n, j requires 0 <= j < n => StreamOf(folders, i, j))
  }

  function Mappings(folders: seq<Folder>, n: nat): (m: seq<FileStream>)
    requires n <= |folders|
    ensures |m| == SubstreamsBefore(folders, n)
  {
    if n == 0 then [] else Mappings(folders, n - 1) + Row(folders, n - 1, |folders[n - 1].substreams|)
  }

  /** Substream j of folder i stands after all substreams of earlier folders. */
  lemma {:induction false} MappingAt(folders: seq<Folder>, n: nat, i: nat, j: nat)
    requires i < n <= |folders| && j < |folders[i].substreams|
    ensures SubstreamsBefore(folders, i) + j < |Mappings(folders, n)|
    ensures Mappings(folders, n)[SubstreamsBefore(folders, i) + j] == StreamOf(folders, i, j)
    decreases n
  {
    if i < n - 1 {
      MappingAt(folders, n - 1, i, j);
    }
  }

  lemma {:induction false} MappingFrom(folders: seq<Folder>, n: nat, k: nat) returns (i: nat, j: nat)
    requires n <= |folders| && k < |Mappings(folders, n)|
    ensures i < n && j < |folders[i].substreams| && SubstreamsBefore(folders, i) + j == k
    decreases n
  {
    if k < |Mappings(folders, n - 1)| {
      i, j := MappingFrom(folders, n - 1, k);
    } else {
      i, j := n - 1, k - SubstreamsBefore(folders, n - 1);
    }
  }

  lemma {:induction false} SubstreamsMonotone(folders: seq<Folder>, a: nat, b: nat)
    requires a <= b <= |folders|
    ensures SubstreamsBefore(folders, a) <= SubstreamsBefore(folders, b)
    decreases b
  {
    if a < b {
      SubstreamsMonotone(folders, a, b - 1);
    }
  }

  predicate Lexicographic(a: FileStream, b: FileStream) {
    a.folder < b.folder || (a.folder == b.folder && a.substream < b.substream)
  }

  /** The list is in lexicographic order of (folder, substream). */
  lemma MappingsOrdered(folders: seq<Folder>, k: nat, l: nat)
    requires k < l < |Mappings(folders, |folders|)|
    ensures Lexicographic(Mappings(folders, |folders|)[k], Mappings(folders, |folders|)[l])
  {
    hide Mappings, SubstreamsBefore;
    var n := |folders|;
    var i, j := MappingFrom(folders, n, k);
    var i', j' := MappingFrom(folders, n, l);
    MappingAt(folders, n, i, j);
    MappingAt(folders, n, i', j');
    if i' < i {
      SubstreamsMonotone(folders, i' + 1, i);
      RowEnds(folders, i');
    }
  }

  lemma RowEnds(folders: seq<Folder>, i: nat)
    requires i < |folders|
    ensures SubstreamsBefore(folders, i + 1) == SubstreamsBefore(folders, i) + |folders[i].substreams|
  {
  }

  method CollectStreamMappings(streams: Option<StreamsInfo>, control: ParseControl) returns (r: Result<seq<FileStream>>)
    requires streams.Some? ==> streams.value.substreamCount <= U64_MAX
    modifies control
    ensures r.Success? ==> r.value == AllStreams(streams)
    ensures r.Failure? ==>
      || (Interrupted(r) && control.stopped)
      || (r.error == Format(MemberCountInconsistent) && streams.Some?
          && SubstreamsBefore(streams.value.folders, |streams.value.folders|) != streams.value.substreamCount)
  {
    var total := if streams.Some? then streams.value.substreamCount else 0;
    var _ :- control.Checkpoint(total);
    var mappings: seq<FileStream> := [];
    if streams.Some? {
      var folders := streams.value.folders;
      for i := 0 to |folders|
        invariant mappings == Mappings(folders, i)
      {
        for j := 0 to |folders[i].substreams|
          invariant mappings == Mappings(folders, i) + Row(folders, i, j)
        {
          var _ :- control.Checkpoint(1);
          var stream := folders[i].substreams[j];
          mappings := mappings + [FileStream(i, j, stream.size, stream.crc)];
        }
      }
    }
    if |mappings| != total {
      return Failure(Format(MemberCountInconsistent));
    }
    return Success(mappings);
  }

  function AllStreams(streams: Option<StreamsInfo>): seq<FileStream> {
    if streams.None? then [] else Mappings(streams.value.folders, |streams.value.folders|)
  }

  // ----- The files.

  /** The position of file i among the files with a stream. */
  function StreamIndex(empty: seq<bool>, i: nat): nat
    requires i <= |empty|
  {
    i - SetBefore(empty, i)
  }

  type Column = Option<seq<Option<u64>>>

  datatype FileVectors = FileVectors(
    empty: seq<bool>,
    emptyFile: seq<bool>,
    anti: seq<bool>,
    names: Option<seq<Name>>,
    stamps: Stamps<Column>,
    mappings: seq<FileStream>)

  predicate ColumnFits(column: Column, count: nat) {
    column.Some? ==> |column.value| == count
  }

  predicate StampsFit(stamps: Stamps<Column>, count: nat) {
    && ColumnFits(stamps.creation, count) && ColumnFits(stamps.access, count) && ColumnFits(stamps.modification, count)
    && ColumnFits(stamps.attributes, count) && ColumnFits(stamps.startPosition, count)
  }

  function ValueAt(column: Column, i: nat): (r: Result<Option<u64>>)
    ensures r.Failure? ==> r.error == Format(DetailsTooShort) && column.Some? && i >= |column.value|
  {
    if column.None? then Success(None)
    else if i < |column.value| then Success(column.value[i])
    else Failure(Format(DetailsTooShort))
  }

  function StampsAt(stamps: Stamps<Column>, i: nat): (r: Result<Stamps<Option<u64>>>)
    ensures r.Failure? ==> r.error == Format(DetailsTooShort) && forall count :: i < count ==> !StampsFit(stamps, count)
  {
    var creation :- ValueAt(stamps.creation, i);
    var access :- ValueAt(stamps.access, i);
    var modification :- ValueAt(stamps.modification, i);
    var attributes :- ValueAt(stamps.attributes, i);
    var startPosition :- ValueAt(stamps.startPosition, i);
    Success(Stamps(creation, access, modification, attributes, startPosition))
  }

  /** One flag per file, one pair of flags per file without a stream, one mapping per other file. */
  predicate Fits(v: FileVectors, count: nat) {
    && |v.empty| == count
    && |v.emptyFile| == |v.anti| == SetBefore(v.empty, count)
    && |v.mappings| == StreamIndex(v.empty, count)
    && (v.names.Some? ==> |v.names.value| == count)
    && StampsFit(v.stamps, count)
  }

  function EntryOf(v: FileVectors, i: nat): FileEntry
    requires Fits(v, |v.empty|) && i < |v.empty|
  {
    SetMonotone(v.empty, i + 1, |v.empty|);
    var name := if v.names.Some? then Some(v.names.value[i]) else None;
    var stamps := StampsAt(v.stamps, i).value;
    if v.empty[i] then
      var e := SetBefore(v.empty, i);
      FileEntry(name, false, v.emptyFile[e], v.anti[e], stamps, None)
    else
      FileEntry(name, true, false, false, stamps, Some(v.mappings[StreamIndex(v.empty, i)]))
  }

  predicate EntriesOk(entries: seq<FileEntry>, v: FileVectors, n: nat) {
    Fits(v, |v.empty|) && |entries| == n <= |v.empty| && forall i :: 0 <= i < n ==> entries[i] == EntryOf(v, i)
  }

  lemma OneMoreEntry(entries: seq<FileEntry>, v: FileVectors, n: nat)
    requires n < |v.empty| && EntriesOk(entries, v, n)
    ensures EntriesOk(entries + [EntryOf(v, n)], v, n + 1)
  {
    hide EntryOf;
  }

  /** Moving cursors over the vectors. When the vectors fit, none runs out and none
      has values left over. */
  method ListEntries(count: nat, v: FileVectors, control: ParseControl) returns (r: Result<seq<FileEntry>>)
    modifies control
    ensures r.Success? ==> EntriesOk(r.value, v, count) || !Fits(v, count)
    ensures r.Failure? ==> (Interrupted(r) && control.stopped) || !Fits(v, count)
  {
    hide EntriesOk, StampsAt, StampsFit;
    var entries: seq<FileEntry> := [];
    var emptyCursor, streamCursor := 0, 0;
    NoEntries(v);
    for i := 0 to count
      invariant |entries| == i
      invariant Fits(v, count) ==>
        EntriesOk(entries, v, i) && emptyCursor == SetBefore(v.empty, i) && streamCursor == StreamIndex(v.empty, i)
    {
      var _ :- control.Checkpoint(1);
      if Fits(v, count) {
        SetMonotone(v.empty, i + 1, count);
        OneMoreEntry(entries, v, i);
      }
      if i >= |v.empty| {
        return Failure(Format(EmptyStreamTooShort));
      }
      var isEmptyFile, isAnti := false, false;
      var stream: Option<FileStream> := None;
      if v.empty[i] {
        if emptyCursor >= |v.emptyFile| {
          return Failure(Format(EmptyFileTooShort));
        }
        if emptyCursor >= |v.anti| {
          return Failure(Format(AntiTooShort));
        }
        isEmptyFile, isAnti := v.emptyFile[emptyCursor], v.anti[emptyCursor];
        emptyCursor := emptyCursor + 1;
      } else {
        if streamCursor >= |v.mappings| {
          return Failure(Format(MappingTooShort));
        }
        stream := Some(v.mappings[streamCursor]);
        streamCursor := streamCursor + 1;
      }
      var name: Option<Name> := None;
      if v.names.Some? {
        if i >= |v.names.value| {
          return Failure(Format(NamesTooShort));
        }
        name := Some(v.names.value[i]);
      }
      var stamps :- StampsAt(v.stamps, i);
      entries := entries + [FileEntry(name, !v.empty[i], isEmptyFile, isAnti, stamps, stream)];
    }
    if emptyCursor != |v.emptyFile| || emptyCursor != |v.anti| || streamCursor != |v.mappings| {
      return Failure(Format(FileVectorsUnused));
    }
    return Success(entries);
  }

  lemma NoEntries(v: FileVectors)
    ensures Fits(v, |v.empty|) ==> EntriesOk([], v, 0)
  {
  }

  // ----- The whole of FilesInfo.

  /** The data of the known properties, each given at most once. */
  datatype RawFiles = RawFiles(
    count: u64,
    emptyStream: Option<Bytes>,
    emptyFile: Option<Bytes>,
    anti: Option<Bytes>,
    name: Option<Bytes>,
    stamps: Stamps<Option<Bytes>>)

  function FilesOf(count: u64, slots: map<u8, Bytes>): RawFiles {
    RawFiles(count, Slot(slots, ID_EMPTY_STREAM), Slot(slots, ID_EMPTY_FILE), Slot(slots, ID_ANTI),
             Slot(slots, ID_NAME), Stamps(Slot(slots, ID_CTIME), Slot(slots, ID_ATIME), Slot(slots, ID_MTIME),
                                          Slot(slots, ID_WIN_ATTRIBUTES),
                    Slot(slots, ID_START_POS)))
  }

  predicate StoredProperty(data: Option<Bytes>) {
    data.Some? ==> |data.value| <= U64_MAX
  }

  function Flags(data: Option<Bytes>, count: nat): (flags: seq<bool>)
    ensures |flags| == count
  {
    if data.None? then seq(count, _ => false) else Bits(data.value, 0, count)
  }

  /** A bit vector that must be used to the last byte; all false if it is absent. */
  method ParsePlainBits(data: Option<Bytes>, count: u64, control: ParseControl) returns (r: Result<seq<bool>>)
    modifies control
    ensures r.Success? ==> r.value == Flags(data, count) && (data.Some? ==> |data.value| == BitBytes(count))
    ensures r.Failure? ==>
      NameFault(r.error) && ((Interrupted(r) && control.stopped) || (data.Some? && |data.value| != BitBytes(count)))
  {
    hide Bits;
    if data.None? {
      return Success(seq(count, _ => false));
    }
    var reader := new BoundedReader(data.value);
    var bits :- ParseBits(reader, count, control);
    if reader.position != |data.value| {
      return Failure(Format(Unconsumed));
    }
    return Success(bits);
  }

  method CountSet(flags: seq<bool>) returns (n: nat)
    ensures n == SetBefore(flags, |flags|)
  {
    n := 0;
    for i := 0 to |flags|
      invariant n == SetBefore(flags, i)
    {
      if flags[i] {
        n := n + 1;
      }
    }
  }

  lemma NoLengthFaults()
    ensures forall e :: Interruption(e) ==> !LengthFault(e) && e != Format(FileStreamCountMismatch)
    ensures forall e :: NameFault(e) || DetailFault(e) ==> !LengthFault(e) && e != Format(FileStreamCountMismatch)
    ensures !LengthFault(Format(FileStreamCountMismatch))
  {
  }

  /** A property whose values are in additional stream `dataIndex`, and the files that have one. */
  datatype ExternalProperty = ExternalProperty(id: u8, dataIndex: u64, defined: seq<bool>)

  datatype FileList = FileList(entries: seq<FileEntry>, external: seq<ExternalProperty>)

  predicate InAdditional(external: seq<ExternalProperty>, additionalFolders: nat) {
    forall e :: e in external ==> e.dataIndex < additionalFolders
  }

  predicate HasInlineNames(raw: RawFiles) {
    raw.name.Some? && |raw.name.value| > 0 && raw.name.value[0] == 0
  }

  /** The names the property holds, if they are inline. */
  function InlineNames(raw: RawFiles): (names: Option<seq<Name>>)
    ensures names.Some? ==> |names.value| == raw.count
  {
    if !HasInlineNames(raw) then None
    else
      var names := NamesAt(raw.name.value, 1, raw.count);
      if names.None? then None else Some(names.value.value)
  }

  /** The external stream the property refers to, if it does. */
  function ExternalName(raw: RawFiles): seq<ExternalProperty> {
    if raw.name.None? || HasInlineNames(raw) || UintAt(raw.name.value, 1).Failure? then []
    else [ExternalProperty(ID_NAME, UintAt(raw.name.value, 1).value.value, seq(raw.count, _ => true))]
  }

  /** The numbers a property holds, if they are inline. */
  function InlineNumbers(data: Option<Bytes>, count: nat, width: nat): (column: Column)
    requires Width(width)
    ensures ColumnFits(column, count)
  {
    if data.None? then None
    else
      match DefinedValuesAt(data.value, count, width)
      case Success(InlineValues(values)) => Some(values)
      case _ => None
  }

  function ExternalNumbers(id: u8, data: Option<Bytes>, count: nat, width: nat): seq<ExternalProperty>
    requires Width(width)
  {
    if data.None? then []
    else
      match DefinedValuesAt(data.value, count, width)
      case Success(ExternalValues(dataIndex, defined)) => [ExternalProperty(id, dataIndex, defined)]
      case _ => []
  }

  function InlineStamps(raw: RawFiles): (stamps: Stamps<Column>)
    ensures StampsFit(stamps, raw.count)
  {
    Stamps(InlineNumbers(raw.stamps.creation, raw.count, 8), InlineNumbers(raw.stamps.access, raw.count, 8),
           InlineNumbers(raw.stamps.modification, raw.count, 8), InlineNumbers(raw.stamps.attributes, raw.count, 4),
           InlineNumbers(raw.stamps.startPosition, raw.count, 8))
  }

  function ExternalStamps(raw: RawFiles): seq<ExternalProperty> {
    ExternalNumbers(ID_CTIME, raw.stamps.creation, raw.count, 8)
      + ExternalNumbers(ID_ATIME, raw.stamps.access, raw.count, 8)
    + ExternalNumbers(ID_MTIME, raw.stamps.modification, raw.count, 8)
    + ExternalNumbers(ID_WIN_ATTRIBUTES, raw.stamps.attributes, raw.count, 4)
    + ExternalNumbers(ID_START_POS, raw.stamps.startPosition, raw.count, 8)
  }

  function VectorsOf(raw: RawFiles, streams: Option<StreamsInfo>): FileVectors {
    var empty := Flags(raw.emptyStream, raw.count);
    var emptyCount := SetBefore(empty, raw.count);
    FileVectors(empty, Flags(raw.emptyFile, emptyCount), Flags(raw.anti, emptyCount), InlineNames(raw),
                InlineStamps(raw), AllStreams(streams))
  }

  predicate FilesOk(files: FileList, raw: RawFiles, streams: Option<StreamsInfo>, additionalFolders: nat) {
    && EntriesOk(files.entries, VectorsOf(raw, streams), raw.count)
    && files.external == ExternalName(raw) + ExternalStamps(raw)
    && InAdditional(files.external, additionalFolders)
  }

  // ----- What validation of a file list asks for.

  predicate BitsFit(data: Option<Bytes>, count: nat) {
    data.Some? ==> |data.value| == BitBytes(count)
  }

  predicate FlagsAcceptable(raw: RawFiles) {
    var emptyCount := SetBefore(Flags(raw.emptyStream, raw.count), raw.count);
    BitsFit(raw.emptyStream, raw.count) && BitsFit(raw.emptyFile, emptyCount) && BitsFit(raw.anti, emptyCount)
  }

  predicate NameAcceptable(raw: RawFiles, additionalFolders: nat, limits: Limits) {
    raw.name.Some? ==>
      || InlineOk(raw.name.value, raw.count, limits)
      || (ExternalOk(raw.name.value) && UintAt(raw.name.value, 1).value.value < additionalFolders)
  }

  predicate NumbersAcceptable(data: Option<Bytes>, count: nat, width: nat, additionalFolders: nat)
    requires Width(width)
  {
    data.Some? ==>
      match DefinedValuesAt(data.value, count, width)
      case Failure(_) => false
      case Success(InlineValues(_)) => true
      case Success(ExternalValues(dataIndex, _)) => dataIndex < additionalFolders
  }

  predicate StampsAcceptable(raw: RawFiles, additionalFolders: nat) {
    && NumbersAcceptable(raw.stamps.creation, raw.count, 8, additionalFolders)
    && NumbersAcceptable(raw.stamps.access, raw.count, 8, additionalFolders)
    && NumbersAcceptable(raw.stamps.modification, raw.count, 8, additionalFolders)
    && NumbersAcceptable(raw.stamps.attributes, raw.count, 4, additionalFolders)
    && NumbersAcceptable(raw.stamps.startPosition, raw.count, 8, additionalFolders)
  }

  /** Every property is well-formed, and one substream stands ready for every file with a stream. */
  predicate FilesAcceptable(raw: RawFiles, substreams: nat, additionalFolders: nat, limits: Limits) {
    && FlagsAcceptable(raw) && NameAcceptable(raw, additionalFolders, limits)
       && StampsAcceptable(raw, additionalFolders)
    && substreams == StreamIndex(Flags(raw.emptyStream, raw.count), raw.count)
  }

  method ValidateNames(raw: RawFiles, additionalFolders: nat, limits: Limits, control: ParseControl)
      returns (r: Result<ParsedNames>)
    requires StoredProperty(raw.name)
    modifies control
    ensures r.Success? && raw.name.None? ==> r.value == Inline([])
    ensures r.Success? && raw.name.Some? && r.value.Inline? ==>
      InlineNames(raw) == Some(r.value.names) && InlineOk(raw.name.value, raw.count, limits) && ExternalName(raw) == []
    ensures r.Success? && r.value.ExternalAt? ==>
      && InlineNames(raw) == None && r.value.dataIndex < additionalFolders
      && ExternalName(raw) == [ExternalProperty(ID_NAME, r.value.dataIndex, seq(raw.count, _ => true))]
    ensures r.Failure? ==> NameFault(r.error) || DetailFault(r.error)
    ensures r.Success? ==> NameAcceptable(raw, additionalFolders, limits)
    ensures r.Failure? ==> (Interrupted(r) && control.stopped) || !NameAcceptable(raw, additionalFolders, limits)
  {
    hide NamesAt, UintAt;
    if raw.name.None? {
      return Success(Inline([]));
    }
    var parsed :- ParseNames(raw.name.value, raw.count, limits, control);
    if parsed.ExternalAt? && parsed.dataIndex >= additionalFolders {
      return Failure(Format(DataIndexOutside));
    }
    return Success(parsed);
  }

  /** The ways the number properties are rejected. */
  predicate DetailFault(e: Error) {
    Interruption(e) || ValueFault(e) || e == Format(DataIndexOutside) || CollectFault(e)
  }

  /** Inline values make a column; external ones are noted for later. */
  method ValidateNumbers(id: u8, data: Option<Bytes>, count: u64, width: nat, additionalFolders: nat,
                         external: seq<ExternalProperty>, control: ParseControl)
      returns (r: Result<Column>, longer: seq<ExternalProperty>)
    requires Width(width)
    modifies control
    ensures r.Success? ==>
      && r.value == InlineNumbers(data, count, width) && longer == external + ExternalNumbers(id, data, count, width)
      && InAdditional(ExternalNumbers(id, data, count, width), additionalFolders)
    ensures r.Failure? ==> DetailFault(r.error)
    ensures r.Success? ==> NumbersAcceptable(data, count, width, additionalFolders)
    ensures r.Failure? ==>
      (Interrupted(r) && control.stopped) || !NumbersAcceptable(data, count, width, additionalFolders)
  {
    hide DefinedValuesAt;
    longer := external;
    if data.None? {
      assert external + [] == external;
      return Success(None), longer;
    }
    var parsed := ParseDefinedValues(data.value, count, width, control);
    if parsed.Failure? {
      return Failure(parsed.error), longer;
    }
    match parsed.value {
      case InlineValues(values) =>
        assert external + [] == external;
        return Success(Some(values)), longer;
      case ExternalValues(dataIndex, defined) =>
        if dataIndex >= additionalFolders {
          return Failure(Format(DataIndexOutside)), longer;
        }
        longer := external + [ExternalProperty(id, dataIndex, defined)];
        return Success(None), longer;
    }
  }

  method ValidateStamps(raw: RawFiles, additionalFolders: nat, external: seq<ExternalProperty>, control: ParseControl)
      returns (r: Result<Stamps<Column>>, longer: seq<ExternalProperty>)
    modifies control
    ensures r.Success? ==> r.value == InlineStamps(raw) && longer == external + ExternalStamps(raw)
    ensures r.Success? && InAdditional(external, additionalFolders) ==> InAdditional(longer, additionalFolders)
    ensures r.Failure? ==> DetailFault(r.error)
    ensures r.Success? ==> StampsAcceptable(raw, additionalFolders)
    ensures r.Failure? ==> (Interrupted(r) && control.stopped) || !StampsAcceptable(raw, additionalFolders)
  {
    hide InlineNumbers, ExternalNumbers, DetailFault, InAdditional, DefinedValuesAt, NumbersAcceptable;
    var count := raw.count;
    var creation, access, modification, attributes, startPosition;
    creation, longer := ValidateNumbers(ID_CTIME, raw.stamps.creation, count, 8, additionalFolders, external, control);
    if creation.Failure? {
      return Failure(creation.error), longer;
    }
    access, longer := ValidateNumbers(ID_ATIME, raw.stamps.access, count, 8, additionalFolders, longer, control);
    if access.Failure? {
      return Failure(access.error), longer;
    }
    modification, longer := ValidateNumbers(ID_MTIME, raw.stamps.modification, count, 8, additionalFolders, longer,
                                            control);
    if modification.Failure? {
      return Failure(modification.error), longer;
    }
    attributes, longer := ValidateNumbers(ID_WIN_ATTRIBUTES, raw.stamps.attributes, count, 4, additionalFolders, longer,
                                          control);
    if attributes.Failure? {
      return Failure(attributes.error), longer;
    }
    startPosition, longer := ValidateNumbers(ID_START_POS, raw.stamps.startPosition, count, 8, additionalFolders,
                                             longer, control);
    if startPosition.Failure? {
      return Failure(startPosition.error), longer;
    }
    ExternalsInTurn(raw, external, additionalFolders);
    return Success(Stamps(creation.value, access.value, modification.value, attributes.value, startPosition.value)),
        longer;
  }

  lemma ExternalsInTurn(raw: RawFiles, external: seq<ExternalProperty>, additionalFolders: nat)
    ensures external + ExternalStamps(raw)
      == external + ExternalNumbers(ID_CTIME, raw.stamps.creation, raw.count, 8)
         + ExternalNumbers(ID_ATIME, raw.stamps.access, raw.count, 8)
         + ExternalNumbers(ID_MTIME, raw.stamps.modification, raw.count, 8)
         + ExternalNumbers(ID_WIN_ATTRIBUTES, raw.stamps.attributes, raw.count, 4)
         + ExternalNumbers(ID_START_POS, raw.stamps.startPosition, raw.count, 8)
    ensures
      && InAdditional(external, additionalFolders)
      && InAdditional(ExternalNumbers(ID_CTIME, raw.stamps.creation, raw.count, 8), additionalFolders)
      && InAdditional(ExternalNumbers(ID_ATIME, raw.stamps.access, raw.count, 8), additionalFolders)
      && InAdditional(ExternalNumbers(ID_MTIME, raw.stamps.modification, raw.count, 8), additionalFolders)
      && InAdditional(ExternalNumbers(ID_WIN_ATTRIBUTES, raw.stamps.attributes, raw.count, 4), additionalFolders)
      && InAdditional(ExternalNumbers(ID_START_POS, raw.stamps.startPosition, raw.count, 8), additionalFolders)
      ==> InAdditional(external + ExternalStamps(raw), additionalFolders)
  {
    hide ExternalNumbers;
  }

  lemma VectorsFit(raw: RawFiles, streams: Option<StreamsInfo>)
    requires |AllStreams(streams)| == StreamIndex(Flags(raw.emptyStream, raw.count), raw.count)
    ensures Fits(VectorsOf(raw, streams), raw.count)
  {
    hide AllStreams, InlineNames, InlineStamps, StampsFit;
  }

  /** The three kinds of flags, and how many files are without a stream. */
  datatype FileFlags = FileFlags(empty: seq<bool>, emptyFile: seq<bool>, anti: seq<bool>, emptyCount: nat)

  function FlagsOf(raw: RawFiles): FileFlags {
    var empty := Flags(raw.emptyStream, raw.count);
    var emptyCount := SetBefore(empty, raw.count);
    FileFlags(empty, Flags(raw.emptyFile, emptyCount), Flags(raw.anti, emptyCount), emptyCount)
  }

  method ValidateFlags(raw: RawFiles, control: ParseControl) returns (r: Result<FileFlags>)
    modifies control
    ensures r.Success? ==> r.value == FlagsOf(raw) && FlagsAcceptable(raw)
    ensures r.Failure? ==> NameFault(r.error) && ((Interrupted(r) && control.stopped) || !FlagsAcceptable(raw))
  {
    hide Flags, SetBefore, BitBytes, NameFault;
    var empty :- ParsePlainBits(raw.emptyStream, raw.count, control);
    var emptyCount := CountSet(empty);
    var emptyFile :- ParsePlainBits(raw.emptyFile, emptyCount, control);
    var anti :- ParsePlainBits(raw.anti, emptyCount, control);
    return Success(FileFlags(empty, emptyFile, anti, emptyCount));
  }

  /** What the properties say of names and numbers, and what they leave to other streams. */
  datatype Details = Details(names: Option<seq<Name>>, stamps: Stamps<Column>, external: seq<ExternalProperty>)

  method ValidateDetails(raw: RawFiles, additionalFolders: nat, limits: Limits, control: ParseControl)
      returns (r: Result<Details>)
    requires StoredProperty(raw.name)
    modifies control
    ensures r.Success? ==>
      && r.value == Details(InlineNames(raw), InlineStamps(raw), ExternalName(raw) + ExternalStamps(raw))
      && InAdditional(r.value.external, additionalFolders)
      && NameAcceptable(raw, additionalFolders, limits) && StampsAcceptable(raw, additionalFolders)
    ensures r.Failure? ==> NameFault(r.error) || DetailFault(r.error)
    ensures r.Failure? ==>
      || (Interrupted(r) && control.stopped)
      || !(NameAcceptable(raw, additionalFolders, limits) && StampsAcceptable(raw, additionalFolders))
  {
    hide NameAcceptable, StampsAcceptable, InlineOk, InlineNames, ExternalName, InlineStamps, ExternalStamps, NameFault,
         DetailFault;
    var parsed :- ValidateNames(raw, additionalFolders, limits, control);
    NoNames(raw);
    var names := if raw.name.Some? && parsed.Inline? then Some(parsed.names) else None;
    var external: seq<ExternalProperty> := [];
    if parsed.ExternalAt? {
      external := [ExternalProperty(ID_NAME, parsed.dataIndex, seq(raw.count, _ => true))];
    }
    assert external == ExternalName(raw) && InAdditional(external, additionalFolders);
    var stamps;
    stamps, external := ValidateStamps(raw, additionalFolders, external, control);
    if stamps.Failure? {
      return Failure(stamps.error);
    }
    return Success(Details(names, stamps.value, external));
  }

  /** The property vectors are sized from the flags, and the mappings are checked
      against them, so no cursor fault is among the results. */
  method ValidateFiles(raw: RawFiles, streams: Option<StreamsInfo>, additionalFolders: nat, limits: Limits,
                       control: ParseControl)
      returns (r: Result<FileList>)
    requires StoredProperty(raw.name)
    requires streams.Some? ==>
      && streams.value.substreamCount <= U64_MAX
      && SubstreamsBefore(streams.value.folders, |streams.value.folders|) == streams.value.substreamCount
    modifies control
    ensures r.Success? ==> FilesOk(r.value, raw, streams, additionalFolders)
    ensures r.Failure? ==> !LengthFault(r.error)
    ensures r == Failure(Format(FileStreamCountMismatch)) ==>
      |AllStreams(streams)| != StreamIndex(Flags(raw.emptyStream, raw.count), raw.count)
    ensures r.Success? ==> FilesAcceptable(raw, |AllStreams(streams)|, additionalFolders, limits)
    ensures r.Failure? ==>
      (Interrupted(r) && control.stopped) || !FilesAcceptable(raw, |AllStreams(streams)|, additionalFolders, limits)
  {
    hide FlagsAcceptable, NameAcceptable, StampsAcceptable, Flags, AllStreams, InlineNames, InlineStamps, ExternalName;
    hide ExternalStamps, SetBefore, EntriesOk, Fits, LengthFault, NameFault, DetailFault, InAdditional;
    NoLengthFaults();
    var flags :- ValidateFlags(raw, control);
    var details :- ValidateDetails(raw, additionalFolders, limits, control);
    var mappings :- CollectStreamMappings(streams, control);
    if |mappings| != raw.count - flags.emptyCount {
      return Failure(Format(FileStreamCountMismatch));
    }
    VectorsFit(raw, streams);
    var vectors := FileVectors(flags.empty, flags.emptyFile, flags.anti, details.names, details.stamps, mappings);
    var entries :- ListEntries(raw.count, vectors, control);
    return Success(FileList(entries, details.external));
  }

  lemma NoNames(raw: RawFiles)
    ensures raw.name.None? ==> InlineNames(raw) == None && ExternalName(raw) == []
  {
  }

  /** The file list with the properties it does not understand. */
  datatype FilesInfo = FilesInfo(files: FileList, unknown: seq<RawProperty>)

  ghost predicate FilesInfoOk(f: FilesInfo, info: RawFilesInfo, streams: Option<StreamsInfo>, additionalFolders: nat) {
    && KnownOnce(info.properties) && DummiesZero(info.properties) && f.unknown == UnknownOf(info.properties)
    && exists slots ::
         SlotsOk(slots, info.properties) && FilesOk(f.files, FilesOf(info.count, slots), streams, additionalFolders)
  }

  ghost predicate InfoAcceptable(info: RawFilesInfo, substreams: nat, additionalFolders: nat, limits: Limits) {
    && KnownOnce(info.properties) && DummiesZero(info.properties)
    && exists slots ::
         SlotsOk(slots, info.properties)
           && FilesAcceptable(FilesOf(info.count, slots), substreams, additionalFolders, limits)
  }

  lemma InfoDecided(info: RawFilesInfo, c: Collected, substreams: nat, additionalFolders: nat, limits: Limits)
    requires CollectedOk(c, info.properties)
    ensures InfoAcceptable(info, substreams, additionalFolders, limits)
      <==> FilesAcceptable(FilesOf(info.count, c.slots), substreams, additionalFolders, limits)
  {
    hide FilesAcceptable, KnownOnce, DummiesZero, SlotsOk, FilesOf;
    forall slots | SlotsOk(slots, info.properties) ensures slots == c.slots {
      SlotsAgree(slots, c.slots, info.properties);
    }
  }

  /** Accepts exactly the acceptable file lists, unless it is interrupted. */
  method ValidateFilesInfo(info: RawFilesInfo, streams: Option<StreamsInfo>, additionalFolders: nat, limits: Limits,
                           control: ParseControl)
      returns (r: Result<FilesInfo>)
    requires StoredProperties(info.properties)
    requires streams.Some? ==>
      && streams.value.substreamCount <= U64_MAX
      && SubstreamsBefore(streams.value.folders, |streams.value.folders|) == streams.value.substreamCount
    modifies control
    ensures r.Success? ==> FilesInfoOk(r.value, info, streams, additionalFolders)
    ensures r.Failure? ==> !LengthFault(r.error)
    ensures r.Success? ==> InfoAcceptable(info, |AllStreams(streams)|, additionalFolders, limits)
    ensures r.Failure? ==>
      (Interrupted(r) && control.stopped) || !InfoAcceptable(info, |AllStreams(streams)|, additionalFolders, limits)
  {
    hide KnownOnce, DummiesZero, SlotsOk, FilesOk, LengthFault, DetailFault, NameFault, SubstreamsBefore,
         FilesAcceptable;
    NoLengthFaults();
    Collecting();
    var _ :- control.Checkpoint(info.count);
    var collected :- CollectProperties(info.properties, control);
    var raw := FilesOf(info.count, collected.slots);
    NameIsStored(collected, info.properties);
    InfoDecided(info, collected, |AllStreams(streams)|, additionalFolders, limits);
    var files :- ValidateFiles(raw, streams, additionalFolders, limits, control);
    return Success(FilesInfo(files, collected.unknown));
  }

  lemma Collecting()
    ensures forall e :: CollectFault(e) ==> DetailFault(e)
  {
  }

  lemma NameIsStored(c: Collected, properties: seq<RawProperty>)
    requires CollectedOk(c, properties) && StoredProperties(properties)
    ensures StoredProperty(Slot(c.slots, ID_NAME))
  {
    if ID_NAME in c.slots {
      SlotIsProperty(c, properties, ID_NAME, c.slots[ID_NAME]);
    }
  }

  // ----- The k-th file with a stream has the k-th substream.

  lemma EntryStream(files: FileList, raw: RawFiles, streams: Option<StreamsInfo>, additionalFolders: nat, x: nat)
    requires FilesOk(files, raw, streams, additionalFolders) && x < |files.entries| && files.entries[x].stream.Some?
    ensures !files.entries[x].isAnti && !Flags(raw.emptyStream, raw.count)[x] && |files.entries| == raw.count
    ensures
      var flags := Flags(raw.emptyStream, raw.count);
      StreamIndex(flags, x) < |AllStreams(streams)|
        && files.entries[x].stream == Some(AllStreams(streams)[StreamIndex(flags, x)])
  {
    hide Flags, AllStreams, StampsAt, InlineNames, InlineStamps;
    SetMonotone(Flags(raw.emptyStream, raw.count), x + 1, raw.count);
  }

  /** Every file with a stream has a substream of its own, in order. */
  lemma FileHasSubstream(files: FileList, raw: RawFiles, streams: Option<StreamsInfo>, additionalFolders: nat, x: nat)
      returns (i: nat, j: nat)
    requires FilesOk(files, raw, streams, additionalFolders) && x < |files.entries| && files.entries[x].stream.Some?
    ensures streams.Some? && i < |streams.value.folders| && j < |streams.value.folders[i].substreams|
    ensures files.entries[x].stream.value == StreamOf(streams.value.folders, i, j)
    ensures SubstreamsBefore(streams.value.folders, i) + j == StreamIndex(Flags(raw.emptyStream, raw.count), x)
  {
    hide Flags, Mappings, FilesOk, StreamIndex, SubstreamsBefore;
    EntryStream(files, raw, streams, additionalFolders, x);
    var k := StreamIndex(Flags(raw.emptyStream, raw.count), x);
    i, j := MappingFrom(streams.value.folders, |streams.value.folders|, k);
    MappingAt(streams.value.folders, |streams.value.folders|, i, j);
  }

  lemma {:induction false} FileWithStream(empty: seq<bool>, n: nat, k: nat) returns (x: nat)
    requires n <= |empty| && k < StreamIndex(empty, n)
    ensures x < n && !empty[x] && StreamIndex(empty, x) == k
    decreases n
  {
    if k < StreamIndex(empty, n - 1) {
      x := FileWithStream(empty, n - 1, k);
    } else {
      x := n - 1;
    }
  }

  /** Every substream belongs to some file. */
  lemma SubstreamHasFile(files: FileList, raw: RawFiles, streams: StreamsInfo, additionalFolders: nat, i: nat, j: nat)
      returns (x: nat)
    requires FilesOk(files, raw, Some(streams), additionalFolders) && i < |streams.folders|
      && j < |streams.folders[i].substreams|
    ensures x < |files.entries| && files.entries[x].stream == Some(StreamOf(streams.folders, i, j))
  {
    hide Flags, Mappings;
    MappingAt(streams.folders, |streams.folders|, i, j);
    x := FileWithStream(Flags(raw.emptyStream, raw.count), raw.count, SubstreamsBefore(streams.folders, i) + j);
  }

  /** Later files have later substreams: in particular no two files share one. */
  lemma FilesInStreamOrder(files: FileList, raw: RawFiles, streams: Option<StreamsInfo>, additionalFolders: nat, x: nat,
                           y: nat)
    requires FilesOk(files, raw, streams, additionalFolders) && x < y < |files.entries|
    requires files.entries[x].stream.Some? && files.entries[y].stream.Some?
    ensures Lexicographic(files.entries[x].stream.value, files.entries[y].stream.value)
  {
    hide Flags, Mappings, FilesOk;
    var empty := Flags(raw.emptyStream, raw.count);
    EntryStream(files, raw, streams, additionalFolders, x);
    EntryStream(files, raw, streams, additionalFolders, y);
    SetMonotone(empty, x + 1, y);
    MappingsOrdered(streams.value.folders, StreamIndex(empty, x), StreamIndex(empty, y));
  }
}
