/** Every header a parser can return has a written form, and the parser reads that form
    back: plain headers with all their sections, headers whose folder records stand in
    an additional stream, and encoded headers. */
module HeaderEncoding {
  import opened Support
  import opened Sequences
  import opened Bounded
  import opened Model
  import opened SubstreamSyntax
  import opened StreamSyntax
  import opened HeaderSyntax
  import opened VectorWriter
  import opened StreamWriter
  import opened AcceptedHeaders

  // ----- Property lists.

  predicate PropertyHeld(q: RawProperty) {
    q.id != 0 && |q.data| <= U64_MAX
  }

  predicate PropertiesHeld(list: seq<RawProperty>) {
    forall i :: 0 <= i < |list| ==> PropertyHeld(list[i])
  }

  predicate PropertiesAllowed(list: seq<RawProperty>, limits: Limits) {
    forall i :: 0 <= i < |list| ==> |list[i].data| <= limits.maxHeaderBytes
  }

  function PropertyText(q: RawProperty): Bytes
    requires PropertyHeld(q)
  {
    [q.id] + (EncodeUint(|q.data|) + q.data)
  }

  function ListText(list: seq<RawProperty>): Bytes
    requires PropertiesHeld(list)
  {
    if |list| == 0 then [0x00] else PropertyText(list[0]) + ListText(list[1..])
  }

  function AfterList(list: seq<RawProperty>, t: Totals): Totals {
    t.(properties := t.properties + |list|)
  }

  lemma PropertyReads(bytes: Bytes, p: nat, q: RawProperty, limits: Limits, t: Totals)
    requires PropertyHeld(q) && At(bytes, p, PropertyText(q))
    requires |q.data| <= limits.maxHeaderBytes && t.properties + 1 <= limits.maxHeaderProperties
    ensures p < |bytes| && bytes[p] == q.id
    ensures PropertyAt(bytes, p + 1, q.id, limits, t)
      == Success(Parsed(Run(q, t.(properties := t.properties + 1)), p + |PropertyText(q)|))
  {
    hide EncodeUint, UintAt;
    FirstByte(bytes, p, q.id, EncodeUint(|q.data|) + q.data);
    LeadingUint(bytes, p + 1, |q.data|, q.data);
  }

  lemma ListStep(bytes: Bytes, p: nat, limits: Limits, t: Totals, q: RawProperty, middle: nat, next: Totals,
                 rest: seq<RawProperty>, after: Totals, end: nat)
    requires p < |bytes| && bytes[p] == q.id != 0 && middle <= |bytes|
    requires PropertyAt(bytes, p + 1, q.id, limits, t) == Success(Parsed(Run(q, next), middle))
    requires PropertyListAt(bytes, middle, limits, next) == Success(Parsed(Run(rest, after), end))
    ensures PropertyListAt(bytes, p, limits, t) == Success(Parsed(Run([q] + rest, after), end))
  {
    hide PropertyAt, StoredProperties;
  }

  lemma EmptyList(bytes: Bytes, p: nat, limits: Limits, t: Totals)
    requires p < |bytes| && bytes[p] == 0
    ensures PropertyListAt(bytes, p, limits, t) == Success(Parsed(Run([], t), p + 1))
  {
  }

  lemma {:induction false} ListReads(bytes: Bytes, p: nat, list: seq<RawProperty>, limits: Limits, t: Totals)
    requires PropertiesHeld(list) && At(bytes, p, ListText(list))
    requires PropertiesAllowed(list, limits) && t.properties + |list| <= limits.maxHeaderProperties
    ensures p <= |bytes|
    ensures PropertyListAt(bytes, p, limits, t)
      == Success(Parsed(Run(list, AfterList(list, t)), p + |ListText(list)|))
    decreases |list|
  {
    hide PropertyAt, PropertyListAt, PropertyText, At;
    if |list| == 0 {
      AtOne(bytes, p, 0x00);
      EmptyList(bytes, p, limits, t);
    } else {
      var middle, next := p + |PropertyText(list[0])|, t.(properties := t.properties + 1);
      AtConcat(bytes, p, PropertyText(list[0]), ListText(list[1..]));
      PropertyReads(bytes, p, list[0], limits, t);
      ListReads(bytes, middle, list[1..], limits, next);
      ListStep(bytes, p, limits, t, list[0], middle, next, list[1..], AfterList(list, t), p + |ListText(list)|);
      assert list == [list[0]] + list[1..];
    }
  }

  lemma {:induction false} ListLetThrough(bytes: Bytes, p: nat, limits: Limits, t: Totals)
    requires p <= |bytes| && PropertyListAt(bytes, p, limits, t).Success? && Within(t, limits)
    ensures
      var run := PropertyListAt(bytes, p, limits, t).value.value;
      && PropertiesHeld(run.value) && PropertiesAllowed(run.value, limits)
      && run.totals == AfterList(run.value, t) && Within(run.totals, limits)
    decreases |bytes| - p
  {
    hide UintAt, StoredProperties;
    if bytes[p] != 0 {
      var property := PropertyAt(bytes, p + 1, bytes[p], limits, t).value;
      ListLetThrough(bytes, property.end, limits, property.value.totals);
    }
  }

  // ----- The sections of a header, each behind its identifier.

  function ArchivePart(list: seq<RawProperty>): Bytes
    requires PropertiesHeld(list)
  {
    if |list| == 0 then [] else [0x02] + ListText(list)
  }

  predicate SectionHeld(section: Option<RawStreamsInfo>) {
    section.Some? ==> StreamsHeld(section.value)
  }

  function AdditionalPart(additional: Option<RawStreamsInfo>): Bytes
    requires SectionHeld(additional)
  {
    if additional.Some? then [0x03] + StreamsText(additional.value, Inline) else []
  }

  function MainPart(main: Option<RawStreamsInfo>, place: Placement): Bytes
    requires SectionHeld(main)
  {
    if main.Some? then [0x04] + StreamsText(main.value, place) else []
  }

  predicate FilesHeld(files: Option<RawFilesInfo>) {
    files.Some? ==> PropertiesHeld(files.value.properties)
  }

  function FilesPart(files: Option<RawFilesInfo>): Bytes
    requires FilesHeld(files)
  {
    if files.Some? then [0x05] + (EncodeUint(files.value.count) + ListText(files.value.properties)) else []
  }

  predicate HeaderHeld(h: RawHeader) {
    && PropertiesHeld(h.archiveProperties) && SectionHeld(h.additional) && SectionHeld(h.main) && FilesHeld(h.files)
  }

  function HeaderText(h: RawHeader, place: Placement): Bytes
    requires HeaderHeld(h)
  {
    [0x01] + (ArchivePart(h.archiveProperties)
              + (AdditionalPart(h.additional) + (MainPart(h.main, place) + (FilesPart(h.files) + [0x00]))))
  }

  function AfterSection(section: Option<RawStreamsInfo>, t: Totals): Totals {
    if section.Some? then AfterStreams(section.value, t) else t
  }

  function AfterFiles(files: Option<RawFilesInfo>, t: Totals): Totals {
    if files.Some? then AfterList(files.value.properties, t) else t
  }

  predicate FilesAllowed(files: Option<RawFilesInfo>, limits: Limits) {
    files.Some? ==> files.value.count <= limits.maxFiles && PropertiesAllowed(files.value.properties, limits)
  }

  predicate SectionAllowed(section: Option<RawStreamsInfo>, limits: Limits) {
    section.Some? ==> StreamsAllowed(section.value, limits)
  }

  /** The totals of a whole header. */
  function HeaderTotals(h: RawHeader): Totals {
    var streams := AfterSection(h.main, AfterSection(h.additional, AfterList(h.archiveProperties, NO_TOTALS)));
    AfterFiles(h.files, streams)
  }

  predicate HeaderAllowed(h: RawHeader, limits: Limits) {
    && limits.maxRecursionDepth >= 1
    && PropertiesAllowed(h.archiveProperties, limits) && SectionAllowed(h.additional, limits)
    && SectionAllowed(h.main, limits) && FilesAllowed(h.files, limits)
    && Within(HeaderTotals(h), limits)
  }

  predicate MainSupplied(main: Option<RawStreamsInfo>, place: Placement, external: Option<ExternalFolderData>)
    requires SectionHeld(main)
  {
    main.Some? ==> PartSupplied(main.value.unpack, place, external)
  }

  // ----- Each stage reads its part and the identifier behind it.

  lemma ArchiveReads(bytes: Bytes, p: nat, list: seq<RawProperty>, limits: Limits, t: Totals)
    requires PropertiesHeld(list) && At(bytes, p, ArchivePart(list))
    requires PropertiesAllowed(list, limits) && t.properties + |list| <= limits.maxHeaderProperties
    requires
      var q := p + |ArchivePart(list)|;
      q < |bytes| && (|list| == 0 ==> bytes[q] != 0x02)
    ensures
      var q := p + |ArchivePart(list)|;
      ArchiveStageAt(bytes, p, limits, t) == Success(Parsed(Run(Section(list, bytes[q]), AfterList(list, t)), q + 1))
  {
    hide PropertyListAt, ListText, StoredProperties;
    if |list| > 0 {
      FirstByte(bytes, p, 0x02, ListText(list));
      ListReads(bytes, p + 1, list, limits, t);
    } else {
      assert list == [];
    }
  }

  lemma AdditionalReads(bytes: Bytes, p: nat, additional: Option<RawStreamsInfo>, limits: Limits, t: Totals)
    requires SectionHeld(additional) && SectionAllowed(additional, limits) && At(bytes, p, AdditionalPart(additional))
    requires Within(AfterSection(additional, t), limits)
    requires
      var q := p + |AdditionalPart(additional)|;
      q < |bytes| && (additional.None? ==> bytes[q] != 0x03)
    ensures
      var q := p + |AdditionalPart(additional)|;
      && p < |bytes|
      && AdditionalStageAt(bytes, p + 1, bytes[p], limits, t)
         == Success(Parsed(Run(Section(additional, bytes[q]), AfterSection(additional, t)), q + 1))
  {
    hide StreamsInfoAt, StreamsText, StreamsHeld, StreamsAllowed, Counted, AfterStreams, Within;
    if additional.Some? {
      FirstByte(bytes, p, 0x03, StreamsText(additional.value, Inline));
      StreamsRead(bytes, p + 1, additional.value, Inline, limits, t, None);
    }
  }

  lemma FilesRead(bytes: Bytes, p: nat, files: Option<RawFilesInfo>, limits: Limits, t: Totals)
    requires FilesHeld(files) && FilesAllowed(files, limits) && At(bytes, p, FilesPart(files) + [0x00])
    requires Within(AfterFiles(files, t), limits)
    ensures
      var end := p + |FilesPart(files)| + 1;
      && p < end <= |bytes| && bytes[p] in {0x00, 0x05}
      && FilesStageAt(bytes, p + 1, bytes[p], limits, t) == Success(Parsed(Run(files, AfterFiles(files, t)), end))
  {
    hide UintAt, EncodeUint, PropertyListAt, ListText, PropertiesHeld, PropertiesAllowed, StoredProperties, At;
    AtConcat(bytes, p, FilesPart(files), [0x00]);
    AtOne(bytes, p + |FilesPart(files)|, 0x00);
    if files.Some? {
      var list := ListText(files.value.properties);
      FirstByte(bytes, p, 0x05, EncodeUint(files.value.count) + list);
      LeadingUint(bytes, p + 1, files.value.count, list);
      ListReads(bytes, p + 1 + |EncodeUint(files.value.count)|, files.value.properties, limits, t);
    }
  }

  lemma MainReads(bytes: Bytes, p: nat, h: RawHeader, place: Placement, limits: Limits, t: Totals,
                  external: Option<ExternalFolderData>)
    requires HeaderHeld(h) && StoredProperties(h.archiveProperties)
    requires MainSupplied(h.main, place, external) && SectionAllowed(h.main, limits) && FilesAllowed(h.files, limits)
    requires At(bytes, p, MainPart(h.main, place) + (FilesPart(h.files) + [0x00]))
    requires Within(AfterSection(h.main, t), limits) && Within(AfterFiles(h.files, AfterSection(h.main, t)), limits)
    ensures
      var end := p + |MainPart(h.main, place)| + |FilesPart(h.files)| + 1;
      && p < end <= |bytes| && bytes[p] in {0x00, 0x04, 0x05} && SectionCounted(h.additional)
      && MainStageAt(bytes, p + 1, bytes[p], h.archiveProperties, h.additional, limits, t, external)
         == Success(Parsed(Run(Header(h), AfterFiles(h.files, AfterSection(h.main, t))), end))
  {
    hide StreamsInfoAt, FilesStageAt, StreamsText, FilesPart, PropertiesHeld, FilesHeld, PartSupplied, StreamsAllowed,
         FilesAllowed, StoredProperties, Counted, UnpackHeld, AfterStreams, AfterFiles, Within, At;
    var part, rest := MainPart(h.main, place), FilesPart(h.files) + [0x00];
    AtConcat(bytes, p, part, rest);
    FilesRead(bytes, p + |part|, h.files, limits, AfterSection(h.main, t));
    if h.main.Some? {
      FirstByte(bytes, p, 0x04, StreamsText(h.main.value, place));
      StreamsRead(bytes, p + 1, h.main.value, place, limits, t, external);
    }
  }

  // ----- The whole header.

  lemma ListStored(list: seq<RawProperty>, limits: Limits, t: Totals)
    requires PropertiesHeld(list) && t.properties + |list| <= limits.maxHeaderProperties
    ensures StoredProperties(list)
  {
  }

  /** Totals only grow, so the last ones bound those before. */
  lemma TotalsGrow(h: RawHeader, limits: Limits)
    requires Within(HeaderTotals(h), limits)
    ensures
      var archive := AfterList(h.archiveProperties, NO_TOTALS);
      var additional := AfterSection(h.additional, archive);
      && Within(archive, limits) && Within(additional, limits) && Within(AfterSection(h.main, additional), limits)
  {
    hide AfterStreams;
    var archive := AfterList(h.archiveProperties, NO_TOTALS);
    var additional := AfterSection(h.additional, archive);
    if h.main.Some? {
      Growing(h.main.value, additional, limits);
    }
    if h.additional.Some? {
      Growing(h.additional.value, archive, limits);
    }
  }

  lemma AdditionalThenMain(bytes: Bytes, p: nat, h: RawHeader, place: Placement, limits: Limits, t: Totals,
                           external: Option<ExternalFolderData>)
    requires HeaderHeld(h) && StoredProperties(h.archiveProperties)
    requires MainSupplied(h.main, place, external) && HeaderAllowed(h, limits)
      && t == AfterList(h.archiveProperties, NO_TOTALS)
    requires At(bytes, p, AdditionalPart(h.additional) + (MainPart(h.main, place) + (FilesPart(h.files) + [0x00])))
    ensures
      var q := p + |AdditionalPart(h.additional)|;
      var end := q + |MainPart(h.main, place)| + |FilesPart(h.files)| + 1;
      var after := AfterSection(h.additional, t);
      && p < end <= |bytes| && bytes[p] in {0x00, 0x03, 0x04, 0x05} && SectionCounted(h.additional) && q < |bytes|
      && AdditionalStageAt(bytes, p + 1, bytes[p], limits, t)
         == Success(Parsed(Run(Section(h.additional, bytes[q]), after), q + 1))
      && MainStageAt(bytes, q + 1, bytes[q], h.archiveProperties, h.additional, limits, after, external)
         == Success(Parsed(Run(Header(h), HeaderTotals(h)), end))
  {
    hide StreamsHeld, StreamsText, MainPart, FilesPart, PropertiesHeld, PropertiesAllowed, FilesHeld, MainSupplied,
         StreamsAllowed, FilesAllowed, StoredProperties, SectionCounted, AfterStreams, AfterFiles, Within,
         AdditionalStageAt, MainStageAt, At;
    var part, rest := AdditionalPart(h.additional), MainPart(h.main, place) + (FilesPart(h.files) + [0x00]);
    TotalsGrow(h, limits);
    AtConcat(bytes, p, part, rest);
    MainReads(bytes, p + |part|, h, place, limits, AfterSection(h.additional, t), external);
    AdditionalReads(bytes, p, h.additional, limits, t);
    if h.additional.Some? {
      FirstByte(bytes, p, 0x03, StreamsText(h.additional.value, Inline));
    }
  }

  /** The parser reads a written header to its last byte and returns what was written,
      wherever the folder records of the main streams stand; bytes behind it are refused. */
  lemma WrittenHeaderParses(h: RawHeader, place: Placement, limits: Limits, external: Option<ExternalFolderData>,
                            rest: Bytes)
    requires HeaderHeld(h) && MainSupplied(h.main, place, external) && HeaderAllowed(h, limits)
    ensures NextHeaderAt(HeaderText(h, place) + rest, limits, external)
         == if rest == [] then Success(Header(h)) else Failure(Format(Unconsumed))
  {
    hide ArchivePart, AdditionalPart, MainPart, FilesPart, PropertiesHeld, PropertiesAllowed, SectionHeld, FilesHeld,
         MainSupplied, SectionAllowed, FilesAllowed, StoredProperties, SectionCounted, AfterSection, AfterFiles,
         ArchiveStageAt, AdditionalStageAt, MainStageAt, At;
    var bytes := HeaderText(h, place) + rest;
    var sections := AdditionalPart(h.additional) + (MainPart(h.main, place) + (FilesPart(h.files) + [0x00]));
    var list := h.archiveProperties;
    AtWhole(HeaderText(h, place), rest);
    FirstByte(bytes, 0, 0x01, ArchivePart(list) + sections);
    AtConcat(bytes, 1, ArchivePart(list), sections);
    TotalsGrow(h, limits);
    ListStored(list, limits, NO_TOTALS);
    AdditionalThenMain(bytes, 1 + |ArchivePart(list)|, h, place, limits, AfterList(list, NO_TOTALS), external);
    ArchiveReads(bytes, 1, list, limits, NO_TOTALS);
  }

  /** So do headers whose streams are packed themselves. */
  lemma WrittenEncodedHeaderParses(s: RawStreamsInfo, limits: Limits, external: Option<ExternalFolderData>,
                                   rest: Bytes)
    requires StreamsHeld(s) && StreamsAllowed(s, limits) && Within(AfterStreams(s, NO_TOTALS), limits)
    requires limits.maxRecursionDepth >= 1
    ensures NextHeaderAt([0x17] + StreamsText(s, Inline) + rest, limits, external)
         == if rest == [] then Success(Encoded(s)) else Failure(Format(Unconsumed))
  {
    hide StreamsText, StreamsInfoAt, StreamsHeld, StreamsAllowed, AfterStreams, Within, At, Counted;
    var text := [0x17] + StreamsText(s, Inline);
    var bytes := text + rest;
    AtWhole(text, rest);
    FirstByte(bytes, 0, 0x17, StreamsText(s, Inline));
    PlacedInline(s);
    StreamsRead(bytes, 1, s, Inline, limits, NO_TOTALS, None);
  }

  lemma WholeHeaderParses(h: RawHeader, place: Placement, limits: Limits, external: Option<ExternalFolderData>)
    requires HeaderHeld(h) && MainSupplied(h.main, place, external) && HeaderAllowed(h, limits)
    ensures NextHeaderAt(HeaderText(h, place), limits, external) == Success(Header(h))
  {
    hide HeaderHeld, MainSupplied, HeaderAllowed, HeaderText, NextHeaderAt;
    WrittenHeaderParses(h, place, limits, external, []);
    assert HeaderText(h, place) + [] == HeaderText(h, place);
  }

  lemma WholeEncodedHeaderParses(s: RawStreamsInfo, limits: Limits)
    requires StreamsHeld(s) && StreamsAllowed(s, limits) && Within(AfterStreams(s, NO_TOTALS), limits)
    requires limits.maxRecursionDepth >= 1
    ensures NextHeaderAt([0x17] + StreamsText(s, Inline), limits, None) == Success(Encoded(s))
  {
    hide StreamsHeld, StreamsAllowed, Within, AfterStreams, StreamsText, NextHeaderAt;
    WrittenEncodedHeaderParses(s, limits, None, []);
    var text := [0x17] + StreamsText(s, Inline);
    assert text + [] == text;
  }

  lemma PlacedInline(s: RawStreamsInfo)
    requires StreamsHeld(s)
    ensures PartSupplied(s.unpack, Inline, None)
  {
    hide Counted;
  }

  // ----- Folder records in an additional stream: the header is parsed twice.

  /** Up to the folder records, the written section is the head of a pending one. */
  lemma PendingHead(bytes: Bytes, p: nat, s: RawStreamsInfo, dataIndex: u64)
    requires StreamsHeld(s) && s.unpack.Some? && At(bytes, p, StreamsText(s, Apart(dataIndex)))
    ensures At(bytes, p, PendingText(s.pack, |s.unpack.value.folders|, dataIndex))
  {
    hide At, PackPart, TailText, SubstreamsPart, EncodeUint, Counted;
    var u, n := s.unpack.value, |s.unpack.value.folders|;
    var count, index := EncodeUint(n), [0x01] + EncodeUint(dataIndex);
    var rest := SubstreamsPart(s.substreams) + [0x00];
    var q := p + |PackPart(s.pack)|;
    AtConcat(bytes, p, PackPart(s.pack), UnpackPart(s.unpack, Apart(dataIndex)) + rest);
    AtConcat(bytes, q, [0x07] + UnpackText(u, Apart(dataIndex)), rest);
    AtConcat(bytes, q, [0x07], UnpackText(u, Apart(dataIndex)));
    AtConcat(bytes, q + 1, [0x0b], count + (index + TailText(u)));
    AtConcat(bytes, q + 2, count, index + TailText(u));
    AtConcat(bytes, q + 2 + |count|, index, TailText(u));
    AtConcat(bytes, q + 2, count, index);
    AtConcat(bytes, q + 1, [0x0b], count + index);
    AtConcat(bytes, q, [0x07], [0x0b] + (count + index));
    AtConcat(bytes, p, PackPart(s.pack), [0x07] + ([0x0b] + (count + index)));
  }

  lemma PendingWithin(s: RawStreamsInfo, t: Totals, limits: Limits)
    requires s.unpack.Some? && Within(AfterStreams(s, t), limits)
    ensures Within(AfterPending(s.pack, |s.unpack.value.folders|, t), limits)
  {
    hide Sum;
  }

  lemma PendingMain(bytes: Bytes, p: nat, h: RawHeader, dataIndex: u64, limits: Limits, t: Totals)
    requires HeaderHeld(h) && StoredProperties(h.archiveProperties) && SectionCounted(h.additional)
    requires h.additional.Some? && h.main.Some? && h.main.value.unpack.Some?
    requires Within(AfterSection(h.main, t), limits) && At(bytes, p, MainPart(h.main, Apart(dataIndex)))
    ensures
      var found := MainStageAt(bytes, p + 1, 0x04, h.archiveProperties, h.additional, limits, t, None);
      && p < |bytes| && bytes[p] == 0x04 && found.Success?
      && found.value.value.value == ExternalFolders(RawPending(h.additional.value, h.main.value.pack, dataIndex, bytes))
  {
    hide StreamsInfoAt, StreamsText, PropertiesHeld, FilesHeld, StoredProperties, SectionCounted, AfterStreams,
         AfterPending, PendingText, PackCounted, FoldersHeld, FoldersCounted, Within, At;
    var main := h.main.value;
    FirstByte(bytes, p, 0x04, StreamsText(main, Apart(dataIndex)));
    PendingHead(bytes, p + 1, main, dataIndex);
    PendingWithin(main, t, limits);
    PendingReads(bytes, p + 1, main.pack, |main.unpack.value.folders|, dataIndex, limits, t);
  }

  /** Without the stream that holds the folder records the parser reports the additional
      streams and which of them it needs; with that stream it reads the same bytes whole. */
  lemma ParsedInTwoPasses(h: RawHeader, dataIndex: u64, limits: Limits)
    requires HeaderHeld(h) && HeaderAllowed(h, limits)
    requires h.additional.Some? && h.main.Some? && h.main.value.unpack.Some?
    ensures
      var bytes := HeaderText(h, Apart(dataIndex));
      var folders := h.main.value.unpack.value.folders;
      var records := ExternalFolderData(dataIndex, FoldersText(folders, |folders|));
      && NextHeaderAt(bytes, limits, None)
         == Success(ExternalFolders(RawPending(h.additional.value, h.main.value.pack, dataIndex, bytes)))
      && NextHeaderAt(bytes, limits, Some(records)) == Success(Header(h))
  {
    hide ArchivePart, AdditionalPart, MainPart, FilesPart, PropertiesHeld, PropertiesAllowed, FilesHeld,
         StreamsAllowed, FilesAllowed, StoredProperties, SectionCounted, AfterStreams, AfterFiles, Counted,
         ArchiveStageAt, AdditionalStageAt, MainStageAt, FoldersHeld, UnpackCounted, FoldersText, At;
    var place := Apart(dataIndex);
    var folders := h.main.value.unpack.value.folders;
    var bytes, list := HeaderText(h, place), h.archiveProperties;
    WholeHeaderParses(h, place, limits, Some(ExternalFolderData(dataIndex, FoldersText(folders, |folders|))));
    assert bytes + [] == bytes;
    var files := FilesPart(h.files) + [0x00];
    var sections := AdditionalPart(h.additional) + (MainPart(h.main, place) + files);
    AtWhole(bytes, []);
    FirstByte(bytes, 0, 0x01, ArchivePart(list) + sections);
    AtConcat(bytes, 1, ArchivePart(list), sections);
    TotalsGrow(h, limits);
    ListStored(list, limits, NO_TOTALS);
    var p, t := 1 + |ArchivePart(list)|, AfterList(list, NO_TOTALS);
    var q := p + |AdditionalPart(h.additional)|;
    AtConcat(bytes, p, AdditionalPart(h.additional), MainPart(h.main, place) + files);
    AtConcat(bytes, q, MainPart(h.main, place), files);
    AdditionalCounted(h.additional);
    PendingMain(bytes, q, h, dataIndex, limits, AfterSection(h.additional, t));
    FirstOfAdditional(bytes, p, h.additional);
    AdditionalReads(bytes, p, h.additional, limits, t);
    ArchiveReads(bytes, 1, list, limits, NO_TOTALS);
  }

  lemma AdditionalCounted(additional: Option<RawStreamsInfo>)
    requires SectionHeld(additional)
    ensures SectionCounted(additional)
  {
  }

  lemma FirstOfAdditional(bytes: Bytes, p: nat, additional: Option<RawStreamsInfo>)
    requires SectionHeld(additional) && additional.Some? && At(bytes, p, AdditionalPart(additional))
    ensures p < |bytes| && bytes[p] == 0x03
  {
    hide StreamsHeld, StreamsText;
    FirstByte(bytes, p, 0x03, StreamsText(additional.value, Inline));
  }

  // ----- Nothing else is let through.

  predicate NextHeld(raw: RawNextHeader) {
    match raw
    case Header(h) => HeaderHeld(h)
    case Encoded(s) => StreamsHeld(s)
    case ExternalFolders(pending) =>
      StreamsHeld(pending.additional) && (pending.mainPack.Some? ==> PackCounted(pending.mainPack.value))
  }

  predicate NextAllowed(raw: RawNextHeader, limits: Limits) {
    && limits.maxRecursionDepth >= 1
    && match raw
       case Header(h) => HeaderAllowed(h, limits)
       case Encoded(s) => StreamsAllowed(s, limits) && Within(AfterStreams(s, NO_TOTALS), limits)
       case ExternalFolders(pending) => StreamsAllowed(pending.additional, limits)
  }

  lemma FilesLetThrough(bytes: Bytes, p: nat, id: u8, limits: Limits, t: Totals)
    requires p <= |bytes| && FilesStageAt(bytes, p, id, limits, t).Success? && Within(t, limits)
    ensures
      var run := FilesStageAt(bytes, p, id, limits, t).value.value;
      && FilesHeld(run.value) && FilesAllowed(run.value, limits) && run.totals == AfterFiles(run.value, t)
      && Within(run.totals, limits)
  {
    hide UintAt, PropertyListAt, StoredProperties, PropertiesHeld, PropertiesAllowed, Within;
    if id == 0x05 {
      ListLetThrough(bytes, UintAt(bytes, p).value.end, limits, t);
    }
  }

  lemma LastLetThrough(bytes: Bytes, p: nat, id: u8, list: seq<RawProperty>, additional: Option<RawStreamsInfo>,
                       main: Option<RawStreamsInfo>, limits: Limits, t: Totals)
    requires p <= |bytes| && StoredProperties(list) && SectionCounted(additional) && SectionCounted(main)
    requires LastStageAt(bytes, p, id, list, additional, main, limits, t).Success? && Within(t, limits)
    ensures
      var run := LastStageAt(bytes, p, id, list, additional, main, limits, t).value.value;
      && run.value.Header? && run.value.header.archiveProperties == list && run.value.header.additional == additional
      && run.value.header.main == main && FilesHeld(run.value.header.files)
      && FilesAllowed(run.value.header.files, limits) && run.totals == AfterFiles(run.value.header.files, t)
      && Within(run.totals, limits)
  {
    hide FilesStageAt, StoredProperties, SectionCounted, FilesHeld, FilesAllowed, Within, AfterFiles;
    FilesLetThrough(bytes, p, id, limits, t);
  }

  lemma MainLetThrough(bytes: Bytes, p: nat, id: u8, list: seq<RawProperty>, additional: Option<RawStreamsInfo>,
                       limits: Limits, t: Totals, external: Option<ExternalFolderData>)
    requires p <= |bytes| && StoredProperties(list) && SectionCounted(additional)
    requires MainStageAt(bytes, p, id, list, additional, limits, t, external).Success? && Within(t, limits)
    ensures
      var raw := MainStageAt(bytes, p, id, list, additional, limits, t, external).value.value.value;
      && !raw.Encoded?
      && (raw.ExternalFolders? ==> additional == Some(raw.pending.additional))
      && (raw.Header? ==>
            var h := raw.header;
            && h.archiveProperties == list && h.additional == additional && SectionHeld(h.main) && FilesHeld(h.files)
            && SectionAllowed(h.main, limits) && FilesAllowed(h.files, limits)
            && Within(AfterFiles(h.files, AfterSection(h.main, t)), limits))
  {
    hide StreamsInfoAt, LastStageAt, StoredProperties, Counted, StreamsHeld, StreamsAllowed, FilesHeld, FilesAllowed,
         Within, AfterFiles, AfterStreams;
    if id == 0x04 {
      StreamsLetThrough(bytes, p, limits, t, external);
      var streams := StreamsInfoAt(bytes, p, limits, t, external).value;
      if streams.value.value.Complete? {
        LastLetThrough(bytes, streams.end + 1, bytes[streams.end], list, additional, Some(streams.value.value.raw),
                       limits, streams.value.totals);
      }
    } else {
      LastLetThrough(bytes, p, id, list, additional, None, limits, t);
    }
  }

  lemma ArchiveLetThrough(bytes: Bytes, p: nat, limits: Limits, t: Totals)
    requires p <= |bytes| && ArchiveStageAt(bytes, p, limits, t).Success? && Within(t, limits)
    ensures
      var run := ArchiveStageAt(bytes, p, limits, t).value.value;
      && PropertiesHeld(run.value.value) && PropertiesAllowed(run.value.value, limits)
      && run.totals == AfterList(run.value.value, t) && Within(run.totals, limits)
  {
    hide PropertyListAt, StoredProperties, Within;
    if bytes[p] == 0x02 {
      ListLetThrough(bytes, p + 1, limits, t);
    }
  }

  lemma AdditionalLetThrough(bytes: Bytes, p: nat, id: u8, limits: Limits, t: Totals)
    requires p <= |bytes| && AdditionalStageAt(bytes, p, id, limits, t).Success? && Within(t, limits)
    ensures
      var run := AdditionalStageAt(bytes, p, id, limits, t).value.value;
      && SectionHeld(run.value.value) && SectionAllowed(run.value.value, limits)
      && run.totals == AfterSection(run.value.value, t) && Within(run.totals, limits)
  {
    hide StreamsInfoAt, StreamsHeld, StreamsAllowed, Counted, AfterStreams, Within;
    if id == 0x03 {
      StreamsLetThrough(bytes, p, limits, t, None);
    }
  }

  lemma NothingWithin(limits: Limits)
    ensures Within(NO_TOTALS, limits)
  {
  }

  lemma BodyLetThrough(bytes: Bytes, limits: Limits, external: Option<ExternalFolderData>)
    requires 1 <= |bytes| && HeaderBodyAt(bytes, 1, limits, NO_TOTALS, external).Success?
    requires limits.maxRecursionDepth >= 1
    ensures
      var raw := HeaderBodyAt(bytes, 1, limits, NO_TOTALS, external).value.value.value;
      !raw.Encoded? && NextHeld(raw) && NextAllowed(raw, limits)
  {
    hide ArchiveStageAt, AdditionalStageAt, MainStageAt, StoredProperties, StreamsHeld, StreamsAllowed, FilesHeld,
         FilesAllowed, PropertiesHeld, PropertiesAllowed, AfterStreams, AfterList, AfterFiles, Within, Counted,
         PackCounted;
    NothingWithin(limits);
    ArchiveLetThrough(bytes, 1, limits, NO_TOTALS);
    var archive := ArchiveStageAt(bytes, 1, limits, NO_TOTALS).value;
    AdditionalLetThrough(bytes, archive.end, archive.value.value.id, limits, archive.value.totals);
    var additional := AdditionalStageAt(bytes, archive.end, archive.value.value.id, limits, archive.value.totals).value;
    MainLetThrough(bytes, additional.end, additional.value.value.id, archive.value.value.value,
                   additional.value.value.value, limits, additional.value.totals, external);
  }

  /** Whatever the bytes, an accepted header is one a writer can put down again, and
      keeps all its limits. */
  lemma AcceptedIsHeld(bytes: Bytes, limits: Limits, external: Option<ExternalFolderData>)
    requires NextHeaderAt(bytes, limits, external).Success?
    ensures NextHeld(NextHeaderAt(bytes, limits, external).value)
    ensures NextAllowed(NextHeaderAt(bytes, limits, external).value, limits)
  {
    hide HeaderBodyAt, StreamsInfoAt, NextCounted, HeaderHeld, HeaderAllowed, StreamsHeld, StreamsAllowed, Within,
         AfterStreams, PackCounted;
    if bytes[0] == 0x01 {
      BodyLetThrough(bytes, limits, external);
    } else {
      NothingWithin(limits);
      StreamsLetThrough(bytes, 1, limits, NO_TOTALS, None);
    }
  }

  /** So every accepted header has a canonical form that says the same. */
  lemma CanonicalForm(bytes: Bytes, limits: Limits, external: Option<ExternalFolderData>)
    requires NextHeaderAt(bytes, limits, external).Success?
    ensures
      match NextHeaderAt(bytes, limits, external).value
      case Header(h) => HeaderHeld(h) && NextHeaderAt(HeaderText(h, Inline), limits, None) == Success(Header(h))
      case Encoded(s) =>
        StreamsHeld(s) && NextHeaderAt([0x17] + StreamsText(s, Inline), limits, None) == Success(Encoded(s))
      case ExternalFolders(pending) => pending.headerBytes == bytes && StreamsHeld(pending.additional)
  {
    hide NextHeaderAt, HeaderText, StreamsText, HeaderHeld, HeaderAllowed, StreamsHeld, StreamsAllowed, Within;
    AcceptedIsHeld(bytes, limits, external);
    match NextHeaderAt(bytes, limits, external).value {
      case Header(h) =>
        MainInline(h);
        WholeHeaderParses(h, Inline, limits, None);
      case Encoded(s) =>
        WholeEncodedHeaderParses(s, limits);
      case ExternalFolders(pending) =>
    }
  }

  lemma MainInline(h: RawHeader)
    requires HeaderHeld(h)
    ensures MainSupplied(h.main, Inline, None)
  {
    hide StreamsHeld;
    if h.main.Some? {
      PlacedInline(h.main.value);
    }
  }
}
