/** A file list as a writer puts it down: validation accepts it whenever its streams
    and its names fit, and gives back the files it was written from. */
module FileRoundTrip {
  import opened Support
  import opened Sequences
  import opened Bounded
  import opened SubstreamSyntax
  import opened VectorWriter
  import opened HeaderSyntax
  import opened Folders
  import opened FileDetails
  import opened FileMapping
  import opened FileWriter
  import opened FileMeaning
  import opened Names

  // ----- The list.

  function Empties(entries: seq<FileEntry>): (empty: seq<bool>)
    ensures |empty| == |entries|
  {
    seq(|entries|, i requires 0 <= i < |entries| => !entries[i].hasStream)
  }

  /** One flag for each file without a stream: is it an empty file? */
  function EmptyFiles(entries: seq<FileEntry>, n: nat): seq<bool>
    requires n <= |entries|
  {
    if n == 0 then []
    else EmptyFiles(entries, n - 1) + if entries[n - 1].hasStream then [] else [entries[n - 1].isEmptyFile]
  }

  function AntiItems(entries: seq<FileEntry>, n: nat): seq<bool>
    requires n <= |entries|
  {
    if n == 0 then []
    else AntiItems(entries, n - 1) + if entries[n - 1].hasStream then [] else [entries[n - 1].isAnti]
  }

  function DefinedFlags(values: seq<Option<u64>>): (defined: seq<bool>)
    ensures |defined| == |values|
  {
    seq(|values|, i requires 0 <= i < |values| => values[i].Some?)
  }

  function NumbersData(values: seq<Option<u64>>, width: nat): Bytes {
    var text := [0x00] + NumbersText(values, width);
    if forall i :: 0 <= i < |values| ==> values[i].Some? then [0x01] + text
    else ([0x00] + FlagBytes(DefinedFlags(values))) + text
  }

  function NumberProperty(entries: seq<FileEntry>, id: u8): RawProperty {
    RawProperty(id, NumbersData(Fields(entries, id), WidthOf(id)))
  }

  /** Files that can be listed: names without zero units, attributes of four bytes, and
      no empty-file or anti-item marks on files with a stream. */
  predicate ListHeld(entries: seq<FileEntry>) {
    && |entries| <= U64_MAX && AllNamed(entries) && AllNonZero(NamesOf(entries))
    && forall i :: 0 <= i < |entries| ==>
         && InRange(entries[i].stamps.attributes, 4)
         && (entries[i].hasStream ==> !entries[i].isEmptyFile && !entries[i].isAnti)
  }

  function WrittenList(entries: seq<FileEntry>): RawFilesInfo
    requires ListHeld(entries)
  {
    var n := |entries|;
    RawFilesInfo(n, [RawProperty(0x0e, FlagBytes(Empties(entries))),
                     RawProperty(0x0f, FlagBytes(EmptyFiles(entries, n))),
                     RawProperty(0x10, FlagBytes(AntiItems(entries, n))),
                     RawProperty(0x11, [0x00] + NamesText(NamesOf(entries))),
                     NumberProperty(entries, 0x12), NumberProperty(entries, 0x13), NumberProperty(entries, 0x14),
                     NumberProperty(entries, 0x15), NumberProperty(entries, 0x18)])
  }

  // ----- Numbers.

  lemma BitsWritten(prefix: Bytes, flags: seq<bool>, rest: Bytes, i: nat)
    requires i < |flags|
    ensures BitIn(prefix + FlagBytes(flags) + rest, |prefix|, i) == flags[i]
  {
    hide FlagBytes, BitIn, BitAt;
    var data := prefix + FlagBytes(flags) + rest;
    assert data == prefix + (FlagBytes(flags) + rest);
    assert data[|prefix|..|prefix| + |FlagBytes(flags)|] == FlagBytes(flags);
    FlagStands(data, |prefix|, flags, i);
    SameBit(data, |prefix|, i);
  }

  /** The written property holds the numbers it was written from. */
  lemma NumbersRoundTrip(values: seq<Option<u64>>, width: nat)
    requires Width(width) && forall i :: 0 <= i < |values| ==> InRange(values[i], width)
    ensures HoldsNumbers(NumbersData(values, width), values, width)
  {
    hide NumbersText, BitIn, FlagBytes, InRange;
    var data, zero: Bytes := NumbersData(values, width), [0x00];
    var text := zero + NumbersText(values, width);
    if !(forall i :: 0 <= i < |values| ==> values[i].Some?) {
      var flags := FlagBytes(DefinedFlags(values));
      assert data[0] == 0 && |zero + flags| == FlagLength(data, |values|);
      forall i | 0 <= i < |values| ensures values[i].Some? == DefinedIn(data, i) {
        BitsWritten(zero, DefinedFlags(values), text, i);
      }
    }
  }

  // ----- Flags.

  lemma {:induction false} EmptyCounted(entries: seq<FileEntry>, n: nat)
    requires n <= |entries|
    ensures |EmptyFiles(entries, n)| == |AntiItems(entries, n)| == SetBefore(Empties(entries), n)
    decreases n
  {
    if n > 0 {
      EmptyCounted(entries, n - 1);
    }
  }

  lemma {:induction false} EmptyInTurn(entries: seq<FileEntry>, n: nat, i: nat)
    requires i < n <= |entries| && !entries[i].hasStream
    ensures SetBefore(Empties(entries), i) < |EmptyFiles(entries, n)| == |AntiItems(entries, n)|
    ensures EmptyFiles(entries, n)[SetBefore(Empties(entries), i)] == entries[i].isEmptyFile
    ensures AntiItems(entries, n)[SetBefore(Empties(entries), i)] == entries[i].isAnti
    decreases n
  {
    EmptyCounted(entries, n - 1);
    if i < n - 1 {
      EmptyInTurn(entries, n - 1, i);
    }
  }

  lemma FlagsWritten(flags: seq<bool>)
    ensures Flags(Some(FlagBytes(flags)), |flags|) == flags && BitsFit(Some(FlagBytes(flags)), |flags|)
  {
    hide FlagBytes, Bits;
    var data := FlagBytes(flags);
    assert data + [] == data;
    AtWhole(data, []);
    FlagsRoundTrip(data, 0, flags);
  }

  // ----- Acceptance.

  /** The slots a written list fills. */
  ghost predicate SlotsWritten(raw: RawFiles, entries: seq<FileEntry>)
    requires ListHeld(entries)
  {
    var n := |entries|;
    && raw.count == n && raw.emptyStream == Some(FlagBytes(Empties(entries)))
    && raw.emptyFile == Some(FlagBytes(EmptyFiles(entries, n))) && raw.anti == Some(FlagBytes(AntiItems(entries, n)))
    && raw.name == Some([0x00] + NamesText(NamesOf(entries)))
    && forall id :: id in {0x12, 0x13, 0x14, 0x15, 0x18} ==>
         DataOf(raw, id) == Some(NumbersData(Fields(entries, id), WidthOf(id)))
  }

  function SlotMap(entries: seq<FileEntry>): map<u8, Bytes>
    requires ListHeld(entries)
  {
    var list := WrittenList(entries).properties;
    map[0x0e := list[0].data, 0x0f := list[1].data, 0x10 := list[2].data, 0x11 := list[3].data, 0x12 := list[4].data,
        0x13 := list[5].data, 0x14 := list[6].data, 0x15 := list[7].data, 0x18 := list[8].data]
  }

  function IdOf(k: nat): u8
    requires k < 9
  {
    if k < 8 then 0x0e + k else 0x18
  }

  /** One property for each known identifier, and the slots with the same data. */
  predicate Slotted(slots: map<u8, Bytes>, list: seq<RawProperty>) {
    && |list| == 9
    && (forall k :: 0 <= k < 9 ==> list[k].id == IdOf(k) && list[k].id in slots && slots[list[k].id] == list[k].data)
    && forall id :: id in slots ==> Known(id)
  }

  lemma KnownHere(id: u8)
    requires Known(id)
    ensures
      var k := if id == 0x18 then 8 else id - 0x0e;
      0 <= k < 9 && IdOf(k) == id
  {
  }

  lemma SlottedOk(slots: map<u8, Bytes>, list: seq<RawProperty>)
    requires Slotted(slots, list)
    ensures SlotsOk(slots, list) && KnownOnce(list) && DummiesZero(list) && UnknownOf(list) == []
  {
    hide UnknownOf;
    forall id | id in slots ensures Known(id) && exists i :: 0 <= i < |list| && list[i].id == id {
      KnownHere(id);
      var k := if id == 0x18 then 8 else id - 0x0e;
      assert list[k].id == id;
    }
    AllKnown(list);
  }

  lemma ListSlots(entries: seq<FileEntry>)
    requires ListHeld(entries)
    ensures SlotsOk(SlotMap(entries), WrittenList(entries).properties)
    ensures KnownOnce(WrittenList(entries).properties) && DummiesZero(WrittenList(entries).properties)
    ensures UnknownOf(WrittenList(entries).properties) == []
    ensures SlotsWritten(FilesOf(|entries|, SlotMap(entries)), entries)
  {
    hide ListHeld, SlotsOk, KnownOnce, DummiesZero, UnknownOf, FlagBytes, NamesText, NumbersData, Fields, Empties,
         EmptyFiles, AntiItems, NamesOf;
    SlottedOk(SlotMap(entries), WrittenList(entries).properties);
  }

  lemma {:induction false} AllKnown(list: seq<RawProperty>)
    requires forall i :: 0 <= i < |list| ==> Known(list[i].id)
    ensures UnknownOf(list) == []
    decreases |list|
  {
    hide Known;
    if |list| > 0 {
      AllKnown(list[..|list| - 1]);
    }
  }

  lemma FlagsAccepted(raw: RawFiles, entries: seq<FileEntry>)
    requires ListHeld(entries) && SlotsWritten(raw, entries)
    ensures FlagsAcceptable(raw) && Flags(raw.emptyStream, raw.count) == Empties(entries)
    ensures
      var n := SetBefore(Empties(entries), |entries|);
      && Flags(raw.emptyFile, n) == EmptyFiles(entries, |entries|)
      && Flags(raw.anti, n) == AntiItems(entries, |entries|)
  {
    hide Flags, FlagBytes, BitsFit, Empties, NamesText, NumbersData, ListHeld;
    var n := |entries|;
    EmptyCounted(entries, n);
    FlagsWritten(Empties(entries));
    FlagsWritten(EmptyFiles(entries, n));
    FlagsWritten(AntiItems(entries, n));
  }

  lemma NumbersAccepted(raw: RawFiles, entries: seq<FileEntry>, additionalFolders: nat, id: u8)
    requires ListHeld(entries) && SlotsWritten(raw, entries) && id in {0x12, 0x13, 0x14, 0x15, 0x18}
    ensures NumbersAcceptable(DataOf(raw, id), raw.count, WidthOf(id), additionalFolders)
    ensures InlineNumbers(DataOf(raw, id), raw.count, WidthOf(id)) == Some(Fields(entries, id))
    ensures ExternalNumbers(id, DataOf(raw, id), raw.count, WidthOf(id)) == []
  {
    hide FlagBytes, NamesText, NumbersData, DefinedValuesAt, HoldsNumbers, AllNonZero, NamesOf;
    NumbersRoundTrip(Fields(entries, id), WidthOf(id));
    NumbersExactly(NumbersData(Fields(entries, id), WidthOf(id)), Fields(entries, id), WidthOf(id));
  }

  lemma NamesAccepted(raw: RawFiles, entries: seq<FileEntry>, additionalFolders: nat, limits: Limits)
    requires ListHeld(entries) && SlotsWritten(raw, entries)
    ensures NameAcceptable(raw, additionalFolders, limits) <==> Within(NamesOf(entries), 0, limits)
  {
    hide FlagBytes, NumbersData, NamesText, NamesAt, Within, Fields, AllNonZero;
    NamesReturned(raw, entries);
  }

  lemma NamesReturned(raw: RawFiles, entries: seq<FileEntry>)
    requires ListHeld(entries) && SlotsWritten(raw, entries)
    ensures
      var data := raw.name.value;
      |data| > 0 && data[0] == 0 && NamesAt(data, 1, |entries|) == Some(Parsed(NamesOf(entries), |data|))
    ensures InlineNames(raw) == Some(NamesOf(entries)) && ExternalName(raw) == []
  {
    hide FlagBytes, NumbersData, NamesText, NamesAt, Fields, At, AllNonZero;
    var data, zero: Bytes := raw.name.value, [0x00];
    var text := NamesText(NamesOf(entries));
    assert data == zero + text;
    AtConcat(data, 0, zero, text);
    assert data + [] == data;
    AtWhole(data, []);
    NamesRead(data, 1, NamesOf(entries));
  }

  /** The written list is accepted if and only if there is one substream for each file
      with a stream and the names keep the limits. */
  lemma WrittenListAccepted(entries: seq<FileEntry>, substreams: nat, additionalFolders: nat, limits: Limits)
    requires ListHeld(entries)
    ensures InfoAcceptable(WrittenList(entries), substreams, additionalFolders, limits)
      <==> substreams == |entries| - SetBefore(Empties(entries), |entries|) && NamesAllowed(NamesOf(entries), 0, limits)
  {
    hide ListHeld, SlotsOk, KnownOnce, DummiesZero, FlagsAcceptable, NameAcceptable, NumbersAcceptable, Within, FilesOf,
         SlotsWritten, NamesOf, NamesAllowed, Empties, Flags, DataOf;
    HeldNamed(entries);
    AllowedIsWithin(NamesOf(entries), 0, limits);
    var list, raw := WrittenList(entries), FilesOf(|entries|, SlotMap(entries));
    ListSlots(entries);
    InfoDecided(list, Collected(SlotMap(entries), []), substreams, additionalFolders, limits);
    CountKept(|entries|, SlotMap(entries));
    FlagsAccepted(raw, entries);
    NamesAccepted(raw, entries, additionalFolders, limits);
    StampsAccepted(raw, entries, additionalFolders);
  }

  lemma HeldNamed(entries: seq<FileEntry>)
    requires ListHeld(entries)
    ensures AllNamed(entries)
  {
  }

  lemma StampsAccepted(raw: RawFiles, entries: seq<FileEntry>, additionalFolders: nat)
    requires ListHeld(entries) && SlotsWritten(raw, entries)
    ensures StampsAcceptable(raw, additionalFolders) && ExternalStamps(raw) == []
  {
    hide ListHeld, SlotsWritten, NumbersAcceptable, ExternalNumbers, InlineNumbers;
    NumbersAccepted(raw, entries, additionalFolders, 0x12);
    NumbersAccepted(raw, entries, additionalFolders, 0x13);
    NumbersAccepted(raw, entries, additionalFolders, 0x14);
    NumbersAccepted(raw, entries, additionalFolders, 0x15);
    NumbersAccepted(raw, entries, additionalFolders, 0x18);
  }

  // ----- What comes back.

  /** The listed file, with the substream whose turn it is. */
  function Returned(entries: seq<FileEntry>, streams: seq<FileStream>, i: nat): FileEntry
    requires i < |entries| && |streams| == |entries| - SetBefore(Empties(entries), |entries|)
  {
    SetMonotone(Empties(entries), i + 1, |entries|);
    entries[i].(stream := if entries[i].hasStream then Some(streams[i - SetBefore(Empties(entries), i)]) else None)
  }

  lemma ReturnedFlags(files: FileList, raw: RawFiles, entries: seq<FileEntry>, streams: Option<StreamsInfo>,
                      additionalFolders: nat, i: nat)
    requires ListHeld(entries) && SlotsWritten(raw, entries) && FilesOk(files, raw, streams, additionalFolders)
    requires |AllStreams(streams)| == |entries| - SetBefore(Empties(entries), |entries|)
    requires i < |entries| == |files.entries|
    ensures
      var e, given := files.entries[i], Returned(entries, AllStreams(streams), i);
      && e.hasStream == given.hasStream && e.isEmptyFile == given.isEmptyFile && e.isAnti == given.isAnti
      && e.stream == given.stream
  {
    hide Flags, AllStreams, NamesText, NumbersData, FlagBytes, FilesOk, AllNonZero, InRange, Fields;
    EntryFlags(files, raw, streams, additionalFolders, i);
    FlagsAccepted(raw, entries);
    if !entries[i].hasStream {
      EmptyInTurn(entries, |entries|, i);
    }
  }

  lemma ReturnedField(files: FileList, raw: RawFiles, entries: seq<FileEntry>, streams: Option<StreamsInfo>,
                      additionalFolders: nat, i: nat, id: u8)
    requires ListHeld(entries) && SlotsWritten(raw, entries) && FilesOk(files, raw, streams, additionalFolders)
    requires i < |entries| == |files.entries| && id in {0x12, 0x13, 0x14, 0x15, 0x18}
    ensures FieldOf(files.entries[i], id) == FieldOf(entries[i], id)
  {
    hide FieldOf, WidthOf, DataOf, InlineNumbers, FilesOk, NumbersAcceptable, AllNonZero, NamesText, NumbersData,
         FlagBytes;
    NumbersAccepted(raw, entries, additionalFolders, id);
    OneField(files, raw, streams, additionalFolders, id, i);
    assert Fields(entries, id)[i] == FieldOf(entries[i], id);
  }

  lemma ReturnedEntry(files: FileList, raw: RawFiles, entries: seq<FileEntry>, streams: Option<StreamsInfo>,
                      additionalFolders: nat, i: nat)
    requires ListHeld(entries) && SlotsWritten(raw, entries) && FilesOk(files, raw, streams, additionalFolders)
    requires |AllStreams(streams)| == |entries| - SetBefore(Empties(entries), |entries|)
    requires i < |entries| == |files.entries|
    requires AllNamed(files.entries) && NamesOf(files.entries) == NamesOf(entries)
    ensures files.entries[i] == Returned(entries, AllStreams(streams), i)
  {
    hide AllNonZero, InRange, SlotsWritten, FilesOk, AllStreams, Empties;
    ReturnedFlags(files, raw, entries, streams, additionalFolders, i);
    ReturnedField(files, raw, entries, streams, additionalFolders, i, 0x12);
    ReturnedField(files, raw, entries, streams, additionalFolders, i, 0x13);
    ReturnedField(files, raw, entries, streams, additionalFolders, i, 0x14);
    ReturnedField(files, raw, entries, streams, additionalFolders, i, 0x15);
    ReturnedField(files, raw, entries, streams, additionalFolders, i, 0x18);
    assert NamesOf(files.entries)[i] == NamesOf(entries)[i];
  }

  /** Validation gives back exactly the files the list was written from, and refers to
      no other stream. */
  lemma WrittenListReturned(f: FilesInfo, entries: seq<FileEntry>, streams: Option<StreamsInfo>, additionalFolders: nat)
    requires ListHeld(entries) && FilesInfoOk(f, WrittenList(entries), streams, additionalFolders)
    requires |AllStreams(streams)| == |entries| - SetBefore(Empties(entries), |entries|)
    ensures |f.files.entries| == |entries| && f.files.external == [] && f.unknown == []
    ensures forall i :: 0 <= i < |entries| ==> f.files.entries[i] == Returned(entries, AllStreams(streams), i)
  {
    hide ListHeld, SlotsOk, KnownOnce, DummiesZero, EntriesOk, FilesOf, SlotsWritten, NamesOf, Empties, Flags,
         AllStreams, Returned, VectorsOf, ExternalName, ExternalStamps, FieldOf, DataOf, NameAcceptable, NumbersAcceptable;
    ListSlots(entries);
    var slots :| SlotsOk(slots, WrittenList(entries).properties)
      && FilesOk(f.files, FilesOf(|entries|, slots), streams, additionalFolders);
    SlotsAgree(slots, SlotMap(entries), WrittenList(entries).properties);
    var raw := FilesOf(|entries|, slots);
    CountKept(|entries|, slots);
    NamesReturned(raw, entries);
    StampsAccepted(raw, entries, additionalFolders);
    EntryNames(f.files, raw, streams, additionalFolders);
    forall i: nat | i < |entries| ensures f.files.entries[i] == Returned(entries, AllStreams(streams), i) {
      ReturnedEntry(f.files, raw, entries, streams, additionalFolders, i);
    }
  }
}
