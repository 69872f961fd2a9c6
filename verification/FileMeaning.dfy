/** What a validated file list says, field by field, of the properties it was made from. */
module FileMeaning {
  import opened Support
  import opened Sequences
  import opened Bounded
  import opened SubstreamSyntax
  import opened Folders
  import opened HeaderSyntax
  import opened FileDetails
  import opened FileMapping
  import opened FileWriter
  import opened Names

  // ----- Properties by their numbers.

  ghost predicate Given(properties: seq<RawProperty>, id: u8) {
    exists q :: q in properties && q.id == id
  }

  /** Flag i of the bit vector with this identifier; false if there is none. */
  ghost predicate Marked(properties: seq<RawProperty>, id: u8, i: nat) {
    exists q :: q in properties && q.id == id && BitIn(q.data, 0, i)
  }

  ghost function MarkedBefore(properties: seq<RawProperty>, id: u8, i: nat): nat {
    if i == 0 then 0 else MarkedBefore(properties, id, i - 1) + if Marked(properties, id, i - 1) then 1 else 0
  }

  lemma SlotGiven(slots: map<u8, Bytes>, properties: seq<RawProperty>, id: u8)
    requires SlotsOk(slots, properties) && Known(id)
    ensures Slot(slots, id).Some? <==> Given(properties, id)
    ensures Slot(slots, id).Some? ==> RawProperty(id, Slot(slots, id).value) in properties
    ensures forall q :: q in properties && q.id == id ==> Slot(slots, id) == Some(q.data)
  {
    if id in slots {
      var i :| 0 <= i < |properties| && properties[i].id == id;
      assert properties[i] == RawProperty(id, slots[id]);
      assert properties[i] in properties;
    }
  }

  lemma FlagMarked(slots: map<u8, Bytes>, properties: seq<RawProperty>, id: u8, count: nat, i: nat)
    requires SlotsOk(slots, properties) && Known(id) && i < count
    ensures Flags(Slot(slots, id), count)[i] == Marked(properties, id, i)
  {
    hide SlotsOk, Known, Bits, BitAt, BitIn;
    SlotGiven(slots, properties, id);
    if Slot(slots, id).Some? {
      var data := Slot(slots, id).value;
      BitsPrefix(data, 0, i, count);
      SameBit(data, 0, i);
      if BitIn(data, 0, i) {
        assert RawProperty(id, data) in properties;
      }
    }
  }

  lemma {:induction false} RankMarked(slots: map<u8, Bytes>, properties: seq<RawProperty>, count: nat, i: nat)
    requires SlotsOk(slots, properties) && i <= count
    ensures SetBefore(Flags(Slot(slots, 0x0e), count), i) == MarkedBefore(properties, 0x0e, i)
    decreases i
  {
    hide SlotsOk, Flags, Slot, Marked;
    if i > 0 {
      RankMarked(slots, properties, count, i - 1);
      FlagMarked(slots, properties, 0x0e, count, i - 1);
    }
  }

  // ----- Flags and streams.

  lemma EntryFlags(files: FileList, raw: RawFiles, streams: Option<StreamsInfo>, additionalFolders: nat, i: nat)
    requires FilesOk(files, raw, streams, additionalFolders) && i < raw.count
    ensures |files.entries| == raw.count
    ensures
      var e, empty := files.entries[i], Flags(raw.emptyStream, raw.count);
      var rank, n := SetBefore(empty, i), SetBefore(empty, raw.count);
      && e.hasStream == !empty[i] && rank <= n
      && (empty[i] ==>
            && rank < n && e.isEmptyFile == Flags(raw.emptyFile, n)[rank] && e.isAnti == Flags(raw.anti, n)[rank])
      && (!empty[i] ==>
            !e.isEmptyFile && !e.isAnti && i - rank < |AllStreams(streams)|
            && e.stream == Some(AllStreams(streams)[i - rank]))
      && (empty[i] ==> e.stream.None?)
  {
    hide Flags, AllStreams, StampsAt, InlineNames, InlineStamps, StampsFit, ExternalName, ExternalStamps;
    SetMonotone(Flags(raw.emptyStream, raw.count), i + 1, raw.count);
  }

  /** Property 0x0e marks the files without a stream; of those, in turn, 0x0f marks the
      empty files and 0x10 the anti-items. The others have the substreams in turn. */
  lemma FlagFields(f: FilesInfo, info: RawFilesInfo, streams: Option<StreamsInfo>, additionalFolders: nat, i: nat)
    requires FilesInfoOk(f, info, streams, additionalFolders) && i < info.count
    ensures |f.files.entries| == info.count
    ensures
      var e, rank := f.files.entries[i], MarkedBefore(info.properties, 0x0e, i);
      && e.hasStream == !Marked(info.properties, 0x0e, i)
      && e.isEmptyFile == (!e.hasStream && Marked(info.properties, 0x0f, rank))
      && e.isAnti == (!e.hasStream && Marked(info.properties, 0x10, rank))
      && e.stream.Some? == e.hasStream
      && (e.hasStream ==> 0 <= i - rank < |AllStreams(streams)| && e.stream.value == AllStreams(streams)[i - rank])
  {
    hide SlotsOk, FilesOk, Flags, Slot, Marked, MarkedBefore, AllStreams, KnownOnce, DummiesZero, UnknownOf, SetBefore;
    var slots :| SlotsOk(slots, info.properties)
      && FilesOk(f.files, FilesOf(info.count, slots), streams, additionalFolders);
    var raw := FilesOf(info.count, slots);
    EntryFlags(f.files, raw, streams, additionalFolders, i);
    FlagMarked(slots, info.properties, 0x0e, info.count, i);
    RankMarked(slots, info.properties, info.count, i);
    RankMarked(slots, info.properties, info.count, info.count);
    var empty := Flags(raw.emptyStream, raw.count);
    var rank, n := SetBefore(empty, i), SetBefore(empty, raw.count);
    if rank < n {
      FlagMarked(slots, info.properties, 0x0f, n, rank);
      FlagMarked(slots, info.properties, 0x10, n, rank);
    }
  }

  /** The bit vectors have exactly the bytes their flags need. */
  lemma FlagLengths(f: FilesInfo, info: RawFilesInfo, streams: Option<StreamsInfo>, additionalFolders: nat,
                    limits: Limits, q: RawProperty)
    requires FilesInfoOk(f, info, streams, additionalFolders)
      && InfoAcceptable(info, |AllStreams(streams)|, additionalFolders, limits)
    requires q in info.properties
    ensures q.id == 0x0e ==> |q.data| == (info.count + 7) / 8
    ensures q.id in {0x0f, 0x10} ==> |q.data| == (MarkedBefore(info.properties, 0x0e, info.count) + 7) / 8
  {
    hide SlotsOk, Slot, FilesOk, FilesInfoOk, InfoAcceptable, NameAcceptable, StampsAcceptable, AllStreams, KnownOnce,
         Marked, Flags, SetBefore;
    var slots := SlotsOf(f, info, streams, additionalFolders, limits);
    SlotGiven(slots, info.properties, 0x0e);
    SlotGiven(slots, info.properties, 0x0f);
    SlotGiven(slots, info.properties, 0x10);
    RankMarked(slots, info.properties, info.count, info.count);
  }

  // ----- Numbers.

  /** The field an identifier fills: creation, access and modification time, attributes
      and start position. */
  function FieldOf(e: FileEntry, id: u8): Option<u64> {
    if id == 0x12 then e.stamps.creation
    else if id == 0x13 then e.stamps.access
    else if id == 0x14 then e.stamps.modification
    else if id == 0x15 then e.stamps.attributes
    else if id == 0x18 then e.stamps.startPosition
    else None
  }

  function Fields(entries: seq<FileEntry>, id: u8): (fields: seq<Option<u64>>)
    ensures |fields| == |entries|
  {
    seq(|entries|, i requires 0 <= i < |entries| => FieldOf(entries[i], id))
  }

  function WidthOf(id: u8): (width: nat)
    ensures Width(width)
  {
    if id == 0x15 then 4 else 8
  }

  predicate AllNone(fields: seq<Option<u64>>) {
    forall i :: 0 <= i < |fields| ==> fields[i].None?
  }

  /** What a column puts into the entries. */
  predicate Filled(fields: seq<Option<u64>>, column: Column) {
    if column.Some? then fields == column.value else AllNone(fields)
  }

  lemma EntryStamps(files: FileList, raw: RawFiles, streams: Option<StreamsInfo>, additionalFolders: nat, i: nat)
    requires FilesOk(files, raw, streams, additionalFolders) && i < raw.count == |files.entries|
    ensures
      var e, stamps := files.entries[i].stamps, InlineStamps(raw);
      StampsFit(stamps, raw.count)
      && e == Stamps(ValueAt(stamps.creation, i).value, ValueAt(stamps.access, i).value,
                     ValueAt(stamps.modification, i).value, ValueAt(stamps.attributes, i).value,
                     ValueAt(stamps.startPosition, i).value)
  {
    hide Flags, AllStreams, InlineNames, InlineStamps, ExternalName, ExternalStamps;
  }

  function DataOf(raw: RawFiles, id: u8): Option<Bytes> {
    if id == 0x12 then raw.stamps.creation
    else if id == 0x13 then raw.stamps.access
    else if id == 0x14 then raw.stamps.modification
    else if id == 0x15 then raw.stamps.attributes
    else if id == 0x18 then raw.stamps.startPosition
    else None
  }

  lemma OneField(files: FileList, raw: RawFiles, streams: Option<StreamsInfo>, additionalFolders: nat, id: u8, i: nat)
    requires FilesOk(files, raw, streams, additionalFolders) && i < raw.count == |files.entries|
    requires id in {0x12, 0x13, 0x14, 0x15, 0x18}
    ensures
      var column := InlineNumbers(DataOf(raw, id), raw.count, WidthOf(id));
      FieldOf(files.entries[i], id) == if column.Some? then column.value[i] else None
  {
    hide FilesOk, InlineNumbers;
    EntryStamps(files, raw, streams, additionalFolders, i);
  }

  lemma FieldsFilled(files: FileList, raw: RawFiles, streams: Option<StreamsInfo>, additionalFolders: nat, id: u8)
    requires FilesOk(files, raw, streams, additionalFolders) && id in {0x12, 0x13, 0x14, 0x15, 0x18}
    ensures |files.entries| == raw.count
    ensures Filled(Fields(files.entries, id), InlineNumbers(DataOf(raw, id), raw.count, WidthOf(id)))
  {
    hide FieldOf, InlineNumbers, InlineNames, InlineStamps, ExternalName, ExternalStamps, Flags, AllStreams, EntryOf;
    var column := InlineNumbers(DataOf(raw, id), raw.count, WidthOf(id));
    forall i: nat | i < |files.entries|
      ensures Fields(files.entries, id)[i] == if column.Some? then column.value[i] else None {
      OneField(files, raw, streams, additionalFolders, id, i);
    }
  }

  /** What the property with this identifier says of the entries. */
  ghost predicate SaysNumbers(data: Bytes, fields: seq<Option<u64>>, id: u8, external: seq<ExternalProperty>) {
    || HoldsNumbers(data, fields, WidthOf(id))
    || (AllNone(fields)
        && exists e :: e in external && e.id == id && |e.defined| == |fields|
                       && HoldsIndex(data, e.defined, e.dataIndex))
  }

  lemma NumbersSaid(data: Bytes, fields: seq<Option<u64>>, id: u8, additionalFolders: nat,
                    external: seq<ExternalProperty>)
    requires NumbersAcceptable(Some(data), |fields|, WidthOf(id), additionalFolders)
    requires Filled(fields, InlineNumbers(Some(data), |fields|, WidthOf(id)))
    requires forall e :: e in ExternalNumbers(id, Some(data), |fields|, WidthOf(id)) ==> e in external
    ensures SaysNumbers(data, fields, id, external)
  {
    hide DefinedValuesAt, HoldsNumbers, HoldsIndex;
    match DefinedValuesAt(data, |fields|, WidthOf(id)).value {
      case InlineValues(values) =>
        NumbersExactly(data, fields, WidthOf(id));
      case ExternalValues(dataIndex, defined) =>
        IndexExactly(data, defined, dataIndex, WidthOf(id));
        var e := ExternalProperty(id, dataIndex, defined);
        assert e in ExternalNumbers(id, Some(data), |fields|, WidthOf(id));
    }
  }

  lemma DataIsSlot(count: u64, slots: map<u8, Bytes>, id: u8)
    requires id in {0x12, 0x13, 0x14, 0x15, 0x18}
    ensures DataOf(FilesOf(count, slots), id) == Slot(slots, id) && Known(id)
  {
  }

  lemma NumbersOfId(raw: RawFiles, additionalFolders: nat, id: u8)
    requires StampsAcceptable(raw, additionalFolders) && id in {0x12, 0x13, 0x14, 0x15, 0x18}
    ensures NumbersAcceptable(DataOf(raw, id), raw.count, WidthOf(id), additionalFolders)
    ensures forall e :: e in ExternalNumbers(id, DataOf(raw, id), raw.count, WidthOf(id)) ==> e in ExternalStamps(raw)
  {
    hide NumbersAcceptable, ExternalNumbers;
  }

  /** The two views of an accepted list have the same slots. */
  lemma SlotsOf(f: FilesInfo, info: RawFilesInfo, streams: Option<StreamsInfo>, additionalFolders: nat, limits: Limits)
      returns (slots: map<u8, Bytes>)
    requires FilesInfoOk(f, info, streams, additionalFolders)
      && InfoAcceptable(info, |AllStreams(streams)|, additionalFolders, limits)
    ensures SlotsOk(slots, info.properties)
    ensures FilesOk(f.files, FilesOf(info.count, slots), streams, additionalFolders)
    ensures FilesAcceptable(FilesOf(info.count, slots), |AllStreams(streams)|, additionalFolders, limits)
  {
    hide SlotsOk, FilesOk, FilesAcceptable, KnownOnce, DummiesZero, AllStreams, FilesOf;
    slots :| SlotsOk(slots, info.properties)
      && FilesOk(f.files, FilesOf(info.count, slots), streams, additionalFolders);
    var others :| SlotsOk(others, info.properties)
      && FilesAcceptable(FilesOf(info.count, others), |AllStreams(streams)|, additionalFolders, limits);
    SlotsAgree(slots, others, info.properties);
  }

  /** Properties 0x12, 0x13 and 0x14 hold the three times, 0x15 the attributes in four
      bytes each and 0x18 the start positions, or they refer to another stream. */
  lemma NumberFields(f: FilesInfo, info: RawFilesInfo, streams: Option<StreamsInfo>, additionalFolders: nat,
                     limits: Limits, id: u8)
    requires FilesInfoOk(f, info, streams, additionalFolders)
      && InfoAcceptable(info, |AllStreams(streams)|, additionalFolders, limits)
    requires id in {0x12, 0x13, 0x14, 0x15, 0x18}
    ensures |f.files.entries| == info.count
    ensures forall q :: q in info.properties && q.id == id ==>
      SaysNumbers(q.data, Fields(f.files.entries, id), id, f.files.external)
    ensures !Given(info.properties, id) ==> AllNone(Fields(f.files.entries, id))
  {
    hide SlotsOk, Slot, FilesInfoOk, InfoAcceptable, FilesOf, InlineNumbers, ExternalNumbers, NumbersAcceptable, DataOf,
         SaysNumbers, FlagsAcceptable, NameAcceptable, StampsAcceptable, AllStreams, EntriesOk, ExternalName,
         ExternalStamps, Fields, FieldOf, WidthOf, KnownOnce, Known;
    var slots := SlotsOf(f, info, streams, additionalFolders, limits);
    var raw := FilesOf(info.count, slots);
    FieldsFilled(f.files, raw, streams, additionalFolders, id);
    CountKept(info.count, slots);
    DataIsSlot(info.count, slots, id);
    SlotGiven(slots, info.properties, id);
    NumbersOfId(raw, additionalFolders, id);
    var fields := Fields(f.files.entries, id);
    if Slot(slots, id).Some? {
      NumbersSaid(Slot(slots, id).value, fields, id, additionalFolders, f.files.external);
    } else {
      NoNumbers(info.count, WidthOf(id));
    }
  }

  lemma CountKept(count: u64, slots: map<u8, Bytes>)
    ensures FilesOf(count, slots).count == count
  {
  }

  lemma NoNumbers(count: nat, width: nat)
    requires Width(width)
    ensures InlineNumbers(None, count, width) == None
  {
  }

  // ----- Names.

  predicate AllNamed(entries: seq<FileEntry>) {
    forall i :: 0 <= i < |entries| ==> entries[i].rawName.Some?
  }

  predicate NoneNamed(entries: seq<FileEntry>) {
    forall i :: 0 <= i < |entries| ==> entries[i].rawName.None?
  }

  function NamesOf(entries: seq<FileEntry>): (names: seq<Name>)
    requires AllNamed(entries)
    ensures |names| == |entries|
  {
    seq(|entries|, i requires 0 <= i < |entries| => entries[i].rawName.value)
  }

  lemma EntryNames(files: FileList, raw: RawFiles, streams: Option<StreamsInfo>, additionalFolders: nat)
    requires FilesOk(files, raw, streams, additionalFolders)
    ensures |files.entries| == raw.count
    ensures InlineNames(raw).None? ==> NoneNamed(files.entries)
    ensures InlineNames(raw).Some? ==> AllNamed(files.entries) && NamesOf(files.entries) == InlineNames(raw).value
  {
    hide Flags, AllStreams, StampsAt, InlineNames, InlineStamps, StampsFit, ExternalName, ExternalStamps;
  }

  /** The property holds the names of all files, or says which stream does. */
  ghost predicate SaysNames(data: Bytes, entries: seq<FileEntry>, limits: Limits, external: seq<ExternalProperty>) {
    || (AllNamed(entries) && AllNonZero(NamesOf(entries)) && data == [0] + NamesText(NamesOf(entries))
        && NamesAllowed(NamesOf(entries), 0, limits))
    || (NoneNamed(entries) && |data| > 0 && data[0] != 0
        && exists e :: e in external && e.id == 0x11 && UintAt(data, 1) == Success(Parsed(e.dataIndex, |data|))
                       && e.defined == seq(|entries|, _ => true))
  }

  lemma NamesFillFrom(data: Bytes, names: seq<Name>)
    requires |data| > 0 && data[0] == 0 && NamesAt(data, 1, |names|) == Some(Parsed(names, |data|))
    ensures AllNonZero(names) && data == [0] + NamesText(names)
  {
    hide NamesText, AllNonZero, NamesAt;
    NamesWritten(data, 1, |names|);
    NamesEnd(data, 1, |names|);
    assert data == [data[0]] + data[1..|data|];
  }

  lemma NamesSaid(files: FileList, raw: RawFiles, streams: Option<StreamsInfo>, additionalFolders: nat, limits: Limits)
    requires FilesOk(files, raw, streams, additionalFolders) && NameAcceptable(raw, additionalFolders, limits)
    ensures raw.name.None? ==> NoneNamed(files.entries)
    ensures raw.name.Some? ==> SaysNames(raw.name.value, files.entries, limits, files.external)
  {
    hide EntriesOk, NamesAt, NamesText, AllNonZero, Within, NamesAllowed, AllNamed, NoneNamed, NamesOf, UintAt,
         ExternalStamps, VectorsOf;
    EntryNames(files, raw, streams, additionalFolders);
    if raw.name.Some? {
      var data := raw.name.value;
      if InlineOk(data, raw.count, limits) {
        NamesFillFrom(data, NamesOf(files.entries));
        AllowedIsWithin(NamesOf(files.entries), 0, limits);
      } else {
        var e := ExternalProperty(0x11, UintAt(data, 1).value.value, seq(raw.count, _ => true));
        assert ExternalName(raw) == [e];
        assert e in files.external;
      }
    }
  }

  /** Property 0x11 holds the names as they are written, low bytes first, within the
      limits; or it refers to another stream. */
  lemma NameFields(f: FilesInfo, info: RawFilesInfo, streams: Option<StreamsInfo>, additionalFolders: nat,
                   limits: Limits)
    requires FilesInfoOk(f, info, streams, additionalFolders)
      && InfoAcceptable(info, |AllStreams(streams)|, additionalFolders, limits)
    ensures forall q :: q in info.properties && q.id == 0x11 ==>
      SaysNames(q.data, f.files.entries, limits, f.files.external)
    ensures !Given(info.properties, 0x11) ==> NoneNamed(f.files.entries)
  {
    hide SlotsOk, Slot, FilesOk, FilesInfoOk, InfoAcceptable, SaysNames, FlagsAcceptable, NameAcceptable,
         StampsAcceptable, AllStreams, KnownOnce;
    var slots := SlotsOf(f, info, streams, additionalFolders, limits);
    SlotGiven(slots, info.properties, 0x11);
    NamesSaid(f.files, FilesOf(info.count, slots), streams, additionalFolders, limits);
  }

  // ----- Everything else.

  ghost predicate StatedBy(e: ExternalProperty, properties: seq<RawProperty>) {
    exists q :: q in properties && q.id == e.id &&
      if e.id == 0x11 then UintAt(q.data, 1) == Success(Parsed(e.dataIndex, |q.data|))
      else e.id in {0x12, 0x13, 0x14, 0x15, 0x18} && HoldsIndex(q.data, e.defined, e.dataIndex)
  }

  lemma NumberReferred(slots: map<u8, Bytes>, properties: seq<RawProperty>, count: nat, id: u8, e: ExternalProperty)
    requires SlotsOk(slots, properties) && id in {0x12, 0x13, 0x14, 0x15, 0x18}
    requires e in ExternalNumbers(id, Slot(slots, id), count, WidthOf(id))
    ensures StatedBy(e, properties)
  {
    hide SlotsOk, DefinedValuesAt, HoldsIndex;
    SlotGiven(slots, properties, id);
    IndexExactly(Slot(slots, id).value, e.defined, e.dataIndex, WidthOf(id));
  }

  /** Only the properties themselves refer to other streams, and only to existing ones. */
  lemma ExternalFields(f: FilesInfo, info: RawFilesInfo, streams: Option<StreamsInfo>, additionalFolders: nat,
                       limits: Limits, e: ExternalProperty)
    requires FilesInfoOk(f, info, streams, additionalFolders)
      && InfoAcceptable(info, |AllStreams(streams)|, additionalFolders, limits)
    requires e in f.files.external
    ensures e.dataIndex < additionalFolders && StatedBy(e, info.properties)
  {
    hide SlotsOk, Slot, EntriesOk, FilesInfoOk, InfoAcceptable, StatedBy, ExternalNumbers, FlagsAcceptable,
         StampsAcceptable, AllStreams, VectorsOf, KnownOnce;
    var slots := SlotsOf(f, info, streams, additionalFolders, limits);
    var raw := FilesOf(info.count, slots);
    if e in ExternalName(raw) {
      NameReferred(slots, info, additionalFolders, limits, e);
    } else if e in ExternalNumbers(0x12, Slot(slots, 0x12), info.count, 8) {
      NumberReferred(slots, info.properties, info.count, 0x12, e);
    } else if e in ExternalNumbers(0x13, Slot(slots, 0x13), info.count, 8) {
      NumberReferred(slots, info.properties, info.count, 0x13, e);
    } else if e in ExternalNumbers(0x14, Slot(slots, 0x14), info.count, 8) {
      NumberReferred(slots, info.properties, info.count, 0x14, e);
    } else if e in ExternalNumbers(0x15, Slot(slots, 0x15), info.count, 4) {
      NumberReferred(slots, info.properties, info.count, 0x15, e);
    } else {
      NumberReferred(slots, info.properties, info.count, 0x18, e);
    }
  }

  lemma NameReferred(slots: map<u8, Bytes>, info: RawFilesInfo, additionalFolders: nat, limits: Limits,
                     e: ExternalProperty)
    requires SlotsOk(slots, info.properties) && e in ExternalName(FilesOf(info.count, slots))
    requires NameAcceptable(FilesOf(info.count, slots), additionalFolders, limits)
    ensures StatedBy(e, info.properties)
  {
    hide SlotsOk, UintAt, HoldsIndex, NamesOk;
    SlotGiven(slots, info.properties, 0x11);
  }

  /** Properties 0x0e to 0x15 and 0x18 are given once, 0x19 holds zeros only, and what
      bears another identifier is kept. */
  lemma PropertiesKept(f: FilesInfo, info: RawFilesInfo, streams: Option<StreamsInfo>, additionalFolders: nat,
                       q: RawProperty)
    requires FilesInfoOk(f, info, streams, additionalFolders)
    ensures forall i, j :: 0 <= i < j < |info.properties| && info.properties[i].id == info.properties[j].id ==>
      info.properties[i].id < 0x0e || (0x15 < info.properties[i].id && info.properties[i].id != 0x18)
    ensures q.id == 0x19 && q in info.properties ==> forall i :: 0 <= i < |q.data| ==> q.data[i] == 0
    ensures q in f.unknown <==>
      q in info.properties && (q.id < 0x0e || (0x15 < q.id && q.id != 0x18 && q.id != 0x19))
  {
    hide FilesOk, SlotsOk;
    UnknownKept(info.properties, q);
  }

  lemma {:induction false} UnknownKept(properties: seq<RawProperty>, q: RawProperty)
    ensures q in UnknownOf(properties) <==>
      q in properties && (q.id < 0x0e || (0x15 < q.id && q.id != 0x18 && q.id != 0x19))
    decreases |properties|
  {
    if |properties| > 0 {
      var n := |properties| - 1;
      UnknownKept(properties[..n], q);
      assert properties == properties[..n] + [properties[n]];
    }
  }
}
