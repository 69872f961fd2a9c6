/** A whole stored archive, written and opened again: the header is accepted, and every
    file comes back with its metadata and its bytes. */
module StoredHeaders {
  import opened Support
  import opened Sequences
  import opened Model
  import opened Folders
  import opened SubstreamSyntax
  import opened StreamSyntax
  import opened HeaderSyntax
  import opened FolderValidation
  import opened StreamValidation
  import opened HeaderValidation
  import opened NextHeaders
  import opened FileMapping
  import opened Archives
  import opened StreamWriter
  import opened HeaderEncoding
  import opened FileWriter
  import opened FileMeaning
  import opened FileRoundTrip
  import opened ValidatedArchives
  import opened StoredWriter
  import opened StoredRoundTrip
  import Ranges
  import Checksums

  // ----- The header around the streams.

  function StoredHeader(contents: seq<seq<Bytes>>, position: u64, entries: seq<FileEntry>): RawHeader
    requires ContentsHeld(contents) && ListHeld(entries)
  {
    RawHeader([], None, Some(WrittenStreams(contents, position)), Some(WrittenList(entries)))
  }

  /** The files that have a stream. */
  function Streamed(entries: seq<FileEntry>): nat {
    |entries| - SetBefore(Empties(entries), |entries|)
  }

  /** There is one member for each file with a stream, and the list can be stored. */
  predicate ArchiveHeld(contents: seq<seq<Bytes>>, entries: seq<FileEntry>) {
    && ContentsHeld(contents) && ListHeld(entries) && PropertiesHeld(WrittenList(entries).properties)
    && Streamed(entries) == TotalBefore(Counts(contents), |contents|)
  }

  lemma RecordHeld(size: u64)
    ensures FolderHeld(FolderRecord(size)) && Sized(FolderRecord(size))
  {
    FolderPorts(size);
  }

  lemma StreamsAreHeld(contents: seq<seq<Bytes>>, position: u64)
    requires ContentsHeld(contents)
    ensures StreamsHeld(WrittenStreams(contents, position))
  {
    hide FolderHeld, FolderCounted, Checksums.Crc, Checksums.Concat, MembersHeld, LaidSizes, LaidCrcs, ExplicitBefore,
         DigestsBefore;
    var n, folders := |contents|, FolderRecords(contents);
    StoredWriter.SizesCounted(contents, n);
    CrcsCounted(contents, n);
    forall i | 0 <= i < n ensures FolderHeld(folders[i]) && FolderCounted(folders[i]) && Sized(folders[i]) {
      RecordHeld(PackSizes(contents)[i]);
      HeldIsCounted(folders[i]);
    }
    assert FoldersCounted(folders) by {
      forall f | f in folders ensures FolderCounted(f) {
        var i :| 0 <= i < n && f == folders[i];
      }
    }
  }

  lemma HeldIsCounted(f: RawFolder)
    requires FolderHeld(f)
    ensures FolderCounted(f)
  {
    hide FolderCounted;
  }

  lemma StoredHeaderHeld(contents: seq<seq<Bytes>>, position: u64, entries: seq<FileEntry>)
    requires ArchiveHeld(contents, entries)
    ensures HeaderHeld(StoredHeader(contents, position, entries))
  {
    hide StreamsHeld, PropertyHeld, WrittenStreams, WrittenList;
    StreamsAreHeld(contents, position);
  }

  lemma CountsAllowed(contents: seq<seq<Bytes>>, position: u64, entries: seq<FileEntry>, limits: Limits)
    requires ArchiveHeld(contents, entries) && HeaderAllowed(StoredHeader(contents, position, entries), limits)
    ensures TotalBefore(Counts(contents), |contents|) <= limits.maxSubstreams
  {
    hide AfterFolders, Sum, TotalBefore, LaidSizes, LaidCrcs, Checksums.Crc, Checksums.Concat, WrittenList, ListHeld,
         MembersHeld;
    var counts := Counts(contents);
    TotalIsSum(counts, |counts|);
    assert counts[..|counts|] == counts;
  }

  lemma OneRangeDisjoint(ranges: seq<Ranges.Range>)
    requires |ranges| <= 1
    ensures Ranges.Disjoint(ranges)
  {
  }

  lemma OneRange(main: Option<RawStreamsInfo>, envelope: Envelope)
    ensures |SectionRanges(main, envelope)| <= 1
  {
  }

  lemma StoredHeaderAcceptable(contents: seq<seq<Bytes>>, position: u64, entries: seq<FileEntry>, envelope: Envelope,
                               archive: Bytes, tables: Tables, limits: Limits)
    requires ArchiveHeld(contents, entries) && KnowsCopy(tables) && Stands(contents, position, envelope, archive)
    requires TotalBefore(Counts(contents), |contents|) <= limits.maxSubstreams
    requires NamesAllowed(NamesOf(entries), 0, limits)
    ensures HeaderAcceptable(StoredHeader(contents, position, entries), envelope, archive, tables, limits)
  {
    hide SectionAcceptable, InfoAcceptable, Stands, Room, NamesAllowed, TotalBefore, NamesOf, MembersHeld, ListHeld,
         PropertiesHeld, LaidSizes, LaidCrcs, PackSizes, PackCrcs, Empties, WrittenList, SectionRange;
    var h := StoredHeader(contents, position, entries);
    StandsInRoom(contents, position, envelope, archive);
    StreamsAccepted(contents, position, envelope, archive, tables, limits);
    OneRange(h.main, envelope);
    OneRangeDisjoint(SectionRanges(h.additional, envelope) + SectionRanges(h.main, envelope));
    WrittenListAccepted(entries, TotalBefore(Counts(contents), |contents|), 0, limits);
  }

  // ----- The whole way.

  /** The written archive is opened, if the limits allow its header. */
  lemma StoredArchiveOpens(contents: seq<seq<Bytes>>, position: u64, entries: seq<FileEntry>, envelope: Envelope,
                           archive: Bytes, tables: Tables, limits: Limits)
    requires ArchiveHeld(contents, entries) && KnowsCopy(tables) && Stands(contents, position, envelope, archive)
    requires HeaderAllowed(StoredHeader(contents, position, entries), limits)
      && NamesAllowed(NamesOf(entries), 0, limits)
    ensures HeaderHeld(StoredHeader(contents, position, entries))
    ensures
      var bytes := HeaderText(StoredHeader(contents, position, entries), Inline);
      |bytes| <= limits.maxHeaderBytes ==> BytesAcceptable(bytes, None, envelope, archive, tables, limits)
  {
    hide ArchiveHeld, HeaderHeld, HeaderAllowed, Stands, NamesAllowed, HeaderText, NextHeaderAt, HeaderAcceptable,
         StoredHeader, NamesOf, ListHeld, ContentsHeld;
    HeldParts(contents, entries);
    var h := StoredHeader(contents, position, entries);
    StoredHeaderHeld(contents, position, entries);
    MainInline(h);
    WholeHeaderParses(h, Inline, limits, None);
    CountsAllowed(contents, position, entries, limits);
    StoredHeaderAcceptable(contents, position, entries, envelope, archive, tables, limits);
  }

  lemma HeldParts(contents: seq<seq<Bytes>>, entries: seq<FileEntry>)
    requires ArchiveHeld(contents, entries)
    ensures ContentsHeld(contents) && ListHeld(entries) && AllNamed(entries)
    ensures Streamed(entries) == TotalBefore(Counts(contents), |contents|)
  {
  }

  /** An opened archive, made from the written header. */
  ghost predicate OpenedFrom(a: Archive, h: ParsedNextHeader, contents: seq<seq<Bytes>>, position: u64,
                             entries: seq<FileEntry>, envelope: Envelope, tables: Tables)
    requires ContentsHeld(contents) && ListHeld(entries)
  {
    && NextOk(h, Header(StoredHeader(contents, position, entries)), envelope, a.bytes, tables)
    && a == ArchiveOf(h.header, a.bytes, a.limits, a.codec) && |a.bytes| <= U64_MAX
  }

  lemma {:induction false} SubstreamsAre(info: StreamsInfo, contents: seq<seq<Bytes>>, position: u64,
                                         envelope: Envelope, archive: Bytes, tables: Tables, k: nat)
    requires ContentsHeld(contents) && KnowsCopy(tables) && k <= |contents| == |info.folders|
    requires StreamsOk(info, WrittenStreams(contents, position), envelope, archive, tables)
    ensures SubstreamsBefore(info.folders, k) == TotalBefore(Counts(contents), k)
    decreases k
  {
    hide StreamsOk, MembersHeld;
    if k > 0 {
      MembersReturned(info, contents, position, envelope, archive, tables, k - 1);
      SubstreamsAre(info, contents, position, envelope, archive, tables, k - 1);
    }
  }

  lemma OpenedParts(a: Archive, h: ParsedNextHeader, contents: seq<seq<Bytes>>, position: u64, entries: seq<FileEntry>,
                    envelope: Envelope, tables: Tables)
    requires ArchiveHeld(contents, entries) && KnowsCopy(tables)
    requires OpenedFrom(a, h, contents, position, entries, envelope, tables)
    ensures ValidArchive(a) && a.streams.Some? && |a.entries| == |entries|
    ensures StreamsOk(a.streams.value, WrittenStreams(contents, position), envelope, a.bytes, tables)
    ensures |a.streams.value.folders| == |contents| && |AllStreams(a.streams)| == Streamed(entries)
    ensures forall x :: 0 <= x < |entries| ==> a.entries[x] == Returned(entries, AllStreams(a.streams), x)
  {
    hide ArchiveHeld, ListHeld, ValidArchive, StreamsOk, FilesInfoOk, WrittenStreams, WrittenList, Returned, Mappings,
         Empties, MembersHeld, Ranges.Disjoint, SectionRanges, TotalBefore;
    HeldParts(contents, entries);
    var raw := StoredHeader(contents, position, entries);
    ValidatedIsValid(h.header, raw, envelope, a.bytes, tables, a.limits, a.codec);
    FoldersCount(a.streams.value, contents, position, envelope, a.bytes, tables);
    SubstreamsAre(a.streams.value, contents, position, envelope, a.bytes, tables, |contents|);
    WrittenListReturned(h.header.files.value, entries, a.streams, 0);
  }

  lemma {:induction false} SameFlags(a: seq<bool>, b: seq<bool>, n: nat)
    requires n <= |a| && n <= |b| && forall i :: 0 <= i < n ==> a[i] == b[i]
    ensures SetBefore(a, n) == SetBefore(b, n)
    decreases n
  {
    if n > 0 {
      SameFlags(a, b, n - 1);
    }
  }

  /** Every file of the opened archive is the file that was written. One with a stream is
      extracted as the member whose turn it is, counting folder by folder; an empty file
      as no bytes; directories and anti-items not at all. */
  lemma StoredFileReturned(a: Archive, h: ParsedNextHeader, contents: seq<seq<Bytes>>, position: u64,
                           entries: seq<FileEntry>, envelope: Envelope, tables: Tables, x: nat)
    requires ArchiveHeld(contents, entries) && KnowsCopy(tables) && Stands(contents, position, envelope, a.bytes)
    requires OpenedFrom(a, h, contents, position, entries, envelope, tables)
    requires Extractable(contents, a.limits) && x < |entries|
    ensures ValidArchive(a) && |a.entries| == |entries|
    ensures a.entries[x] == entries[x].(stream := a.entries[x].stream)
    ensures a.entries[x].stream.Some? == entries[x].hasStream
    ensures entries[x].hasStream ==>
      var m := a.entries[x].stream.value;
      && m.folder < |contents| && m.substream < |contents[m.folder]|
      && TotalBefore(Counts(contents), m.folder) + m.substream == x - SetBefore(Empties(entries), x)
      && Extracted(a, x) == Some(contents[m.folder][m.substream])
    ensures !entries[x].hasStream ==>
      Extracted(a, x) == if entries[x].isEmptyFile && !entries[x].isAnti then Some([]) else None
  {
    HeldParts(contents, entries);
    hide ArchiveHeld, ListHeld, ContentsHeld, ValidArchive, StreamsOk, OpenedFrom, WrittenStreams, Extracted, Stands,
         Extractable, AllStreams, MembersHeld, TotalBefore, SubstreamsBefore, StreamIndex;
    OpenedParts(a, h, contents, position, entries, envelope, tables);
    assert a.entries[x] == Returned(entries, AllStreams(a.streams), x);
    if entries[x].hasStream {
      StoredMemberExtracted(a, contents, position, envelope, tables, x);
      EntryTurn(a, entries, x);
      SubstreamsAre(a.streams.value, contents, position, envelope, a.bytes, tables, a.entries[x].stream.value.folder);
    } else {
      StreamlessExtracted(a, x);
    }
  }

  lemma StreamlessExtracted(a: Archive, x: nat)
    requires ValidArchive(a) && x < |a.entries| && a.entries[x].stream.None?
    ensures Extracted(a, x) == if a.entries[x].isEmptyFile && !a.entries[x].isAnti then Some([]) else None
  {
    hide ValidArchive, Checksums.Crc;
  }

  /** Its substream is the one whose turn it is. */
  lemma EntryTurn(a: Archive, entries: seq<FileEntry>, x: nat)
    requires ValidArchive(a) && |a.entries| == |entries| && x < |entries| && a.entries[x].stream.Some?
    requires |AllStreams(a.streams)| == Streamed(entries)
    requires forall y :: 0 <= y < |entries| ==> a.entries[y] == Returned(entries, AllStreams(a.streams), y)
    ensures
      var m := a.entries[x].stream.value;
      && HasFolder(a, m.folder)
      && SubstreamsBefore(a.streams.value.folders, m.folder) + m.substream == x - SetBefore(Empties(entries), x)
  {
    hide ValidArchive, AllStreams, SubstreamsBefore;
    EntryPlace(a, x);
    forall y: nat | y < x ensures Streamless(a.entries)[y] == Empties(entries)[y] {
      assert a.entries[y] == Returned(entries, AllStreams(a.streams), y);
    }
    SameFlags(Streamless(a.entries), Empties(entries), x);
  }
}
