/** Stored streams, validated and extracted again: every member comes back byte for byte. */
module StoredRoundTrip {
  import opened Support
  import opened Sequences
  import opened Model
  import opened Graph
  import opened Folders
  import opened SubstreamSyntax
  import opened FolderValidation
  import opened StreamValidation
  import opened HeaderValidation
  import opened SectionMeaning
  import opened Archives
  import opened StoredArchives
  import opened StoredWriter
  import Checksums

  // ----- The folders that validation gives back.

  lemma FolderReturned(info: StreamsInfo, contents: seq<seq<Bytes>>, position: u64, envelope: Envelope, archive: Bytes,
                       tables: Tables, i: nat)
    requires ContentsHeld(contents) && KnowsCopy(tables)
    requires StreamsOk(info, WrittenStreams(contents, position), envelope, archive, tables) && i < |contents|
    ensures |info.folders| == |contents|
    ensures
      var f := info.folders[i];
      && OneCopy(f) && f.dictionaryBytes == 0 && f.firstPackStream == i
      && f.unpackSizes == [Some(PackSizes(contents)[i])] && f.rootOutput == 0
      && f.crc == Some(Checksums.Crc(Checksums.Concat(contents[i])))
  {
    hide PackStreamsOk, ValidFolder, ValidGraph, DividedOk, Checksums.Crc, Checksums.Concat, MembersHeld, LaidSizes,
         LaidCrcs, CountsOf, TotalBefore, PackedBefore;
    HeldAt(contents, i);
    OneEach(contents, i);
    var raw := FolderRecords(contents)[i];
    assert DraftOf(info.folders[i], raw, tables, PackCrcs(contents)[i], i);
    CopyCoder(tables, PackSizes(contents)[i]);
  }

  lemma CopyCoder(tables: Tables, size: u64)
    requires KnowsCopy(tables)
    ensures
      var coders := FolderRecord(size).coders;
      CodersOf(coders, tables.kindOf) == [Coder(Copy, 0, 1, 0, 1, [])] && DictionaryTotal(coders, tables, 1) == 0
  {
    var coders := FolderRecord(size).coders;
    assert DictionaryTotal(coders, tables, 0) == 0;
  }

  /** Folder i has one substream for each member, with its size and checksum. */
  lemma MembersReturned(info: StreamsInfo, contents: seq<seq<Bytes>>, position: u64, envelope: Envelope, archive: Bytes,
                        tables: Tables, i: nat)
    requires ContentsHeld(contents) && KnowsCopy(tables)
    requires StreamsOk(info, WrittenStreams(contents, position), envelope, archive, tables) && i < |contents|
    ensures |info.folders| == |contents| && |info.folders[i].substreams| == |contents[i]|
    ensures forall j :: 0 <= j < |contents[i]| ==>
      && info.folders[i].substreams[j].size == Some(Lengths(contents[i])[j])
      && info.folders[i].substreams[j].crc == Some(Checksums.Crc(contents[i][j]))
  {
    hide StreamsOk, DividedOk, Checksums.Crc, Checksums.Concat, MembersHeld, LaidSizes, LaidCrcs, Lengths;
    FolderReturned(info, contents, position, envelope, archive, tables, i);
    FolderParts(info, WrittenStreams(contents, position), envelope, archive, tables, i);
    DividedAsWritten(info.folders[i], contents, i);
  }

  lemma DividedAsWritten(f: Folder, contents: seq<seq<Bytes>>, i: nat)
    requires ContentsHeld(contents) && i < |contents| && f.crc == Some(Checksums.Crc(Checksums.Concat(contents[i])))
    requires RootSize(f) == Some(PackSizes(contents)[i]) && |f.substreams| == |contents[i]|
    requires DividedOk(f, WrittenStreams(contents, 0).substreams, Counts(contents), Some(PackCrcs(contents)), i)
    ensures forall j :: 0 <= j < |contents[i]| ==>
      && f.substreams[j].size == Some(Lengths(contents[i])[j])
      && f.substreams[j].crc == Some(Checksums.Crc(contents[i][j]))
  {
    hide Checksums.Crc, Checksums.Concat, MembersHeld, LaidSizes, LaidCrcs, Lengths, SizesOk;
    SizesAsWritten(f, contents, i);
    forall j: nat | j < |contents[i]| ensures f.substreams[j].crc == Some(Checksums.Crc(contents[i][j])) {
      if |contents[i]| == 1 {
        Alone(contents[i]);
      } else {
        CrcListed(contents, |contents|, i, j);
      }
    }
  }

  lemma Alone(members: seq<Bytes>)
    requires |members| == 1
    ensures Checksums.Concat(members) == members[0]
  {
    var none: seq<Bytes> := [];
    assert members[..0] == none;
    assert Checksums.Concat(none) + members[0] == members[0];
  }

  lemma SizesAsWritten(f: Folder, contents: seq<seq<Bytes>>, i: nat)
    requires ContentsHeld(contents) && i < |contents|
    requires RootSize(f) == Some(PackSizes(contents)[i]) && |f.substreams| == |contents[i]|
    requires DividedOk(f, WrittenStreams(contents, 0).substreams, Counts(contents), Some(PackCrcs(contents)), i)
    ensures forall j :: 0 <= j < |contents[i]| ==> f.substreams[j].size == Some(Lengths(contents[i])[j])
  {
    hide Checksums.Crc, MembersHeld, LaidSizes, LaidCrcs, KnownTotal, GivenSizes, SubstreamCrc;
    var members, n := contents[i], |contents[i]|;
    HeldAt(contents, i);
    GivenForFolder(contents, i);
    var explicit, start := Some(LaidSizes(contents, |contents|)), ExplicitBefore(Counts(contents), i);
    var sizes := seq(n, j requires 0 <= j < n => f.substreams[j].size);
    assert SizesOk(sizes, RootSize(f), n, explicit, start);
    forall j: nat | j < n ensures f.substreams[j].size == Some(Lengths(members)[j]) {
      if j < n - 1 {
        assert sizes[..n - 1][j] == sizes[j] == f.substreams[j].size;
      } else {
        LastMember(members);
        assert sizes[n - 1] == f.substreams[n - 1].size;
      }
    }
  }

  lemma LastMember(members: seq<Bytes>)
    requires |members| > 0 && |Checksums.Concat(members)| < U64_MAX
    ensures
      var last := |members| - 1;
      |Checksums.Concat(members)| == |Checksums.Concat(members[..last])| + Lengths(members)[last]
  {
  }

  // ----- Where the packed bytes stand.

  function Packed(contents: seq<seq<Bytes>>, n: nat): Bytes
    requires n <= |contents|
  {
    if n == 0 then [] else Packed(contents, n - 1) + Checksums.Concat(contents[n - 1])
  }

  lemma {:induction false} PackedStands(contents: seq<seq<Bytes>>, archive: Bytes, start: nat, n: nat, i: nat)
    requires ContentsHeld(contents) && i < n <= |contents| && At(archive, start, Packed(contents, n))
    ensures |Packed(contents, i)| == SizesBefore(PackSizes(contents), i)
    ensures At(archive, start + |Packed(contents, i)|, Checksums.Concat(contents[i]))
    decreases n
  {
    hide At, Checksums.Concat, MembersHeld;
    AtConcat(archive, start, Packed(contents, n - 1), Checksums.Concat(contents[n - 1]));
    if i < n - 1 {
      PackedStands(contents, archive, start, n - 1, i);
    } else {
      PackedLength(contents, i);
    }
  }

  lemma {:induction false} PackedLength(contents: seq<seq<Bytes>>, n: nat)
    requires ContentsHeld(contents) && n <= |contents|
    ensures |Packed(contents, n)| == SizesBefore(PackSizes(contents), n)
    decreases n
  {
    hide Checksums.Concat, MembersHeld;
    if n > 0 {
      PackedLength(contents, n - 1);
    }
  }

  /** The archive holds the packed bytes behind its signature header. */
  predicate Stands(contents: seq<seq<Bytes>>, position: u64, envelope: Envelope, archive: Bytes) {
    var start := envelope.signatureOffset + 32 + position;
    At(archive, start, Packed(contents, |contents|))
    && start + |Packed(contents, |contents|)| <= envelope.nextHeaderOffset
  }

  lemma StandsInRoom(contents: seq<seq<Bytes>>, position: u64, envelope: Envelope, archive: Bytes)
    requires ContentsHeld(contents) && Stands(contents, position, envelope, archive)
    ensures Room(contents, position, envelope, archive)
  {
    hide Packed, MembersHeld;
    var n := |contents|;
    AtBounds(archive, envelope.signatureOffset + 32 + position, Packed(contents, n));
    PackedLength(contents, n);
    BeforeIsSum(PackSizes(contents), n);
    assert PackSizes(contents)[..n] == PackSizes(contents);
  }

  lemma StreamReturned(info: StreamsInfo, contents: seq<seq<Bytes>>, position: u64, envelope: Envelope, archive: Bytes,
                       tables: Tables, i: nat)
    requires ContentsHeld(contents) && Stands(contents, position, envelope, archive)
    requires StreamsOk(info, WrittenStreams(contents, position), envelope, archive, tables) && i < |contents|
    ensures |info.packStreams| == |contents|
    ensures
      var s, whole := info.packStreams[i], Checksums.Concat(contents[i]);
      && s.size == Some(PackSizes(contents)[i]) && s.crc == Some(Checksums.Crc(whole))
      && s.offset + |whole| <= |archive| && archive[s.offset..s.offset + |whole|] == whole
  {
    hide FoldersOk, Checksums.Crc, Checksums.Concat, MembersHeld, LaidSizes, LaidCrcs, Packed, Placed;
    var start := envelope.signatureOffset + 32 + position;
    PackedStands(contents, archive, start, |contents|, i);
    assert info.packStreams[i] == PackStreamOf(WrittenStreams(contents, position).pack.value, envelope, i);
    AtBounds(archive, start + |Packed(contents, i)|, Checksums.Concat(contents[i]));
  }

  // ----- Extraction.

  /** The folders and their members keep the output limits. */
  predicate Extractable(contents: seq<seq<Bytes>>, limits: Limits) {
    forall i :: 0 <= i < |contents| ==>
      && |Checksums.Concat(contents[i])| <= limits.maxTotalOutputBytes
      && forall j :: 0 <= j < |contents[i]| ==> |contents[i][j]| <= limits.maxEntryOutputBytes
  }

  lemma SizesFilled(f: Folder, members: seq<Bytes>, limits: Limits)
    requires MembersHeld(members) && |f.substreams| == |members|
    requires forall j :: 0 <= j < |members| ==> f.substreams[j].size == Some(Lengths(members)[j])
    ensures Filled(SizesOf(f), limits.maxEntryOutputBytes) == Lengths(members)
    ensures Sum(Lengths(members)) == |Checksums.Concat(members)|
  {
    hide Checksums.Concat, Sum, Lengths;
    ConcatLength(members, |members|);
    assert members[..|members|] == members && Lengths(members)[..|members|] == Lengths(members);
  }

  lemma SizesServe(f: Folder, members: seq<Bytes>, limits: Limits)
    requires MembersHeld(members) && |f.substreams| == |members|
    requires forall j :: 0 <= j < |members| ==> f.substreams[j].size == Some(Lengths(members)[j])
    requires |Checksums.Concat(members)| <= limits.maxTotalOutputBytes
      && forall j :: 0 <= j < |members| ==> |members[j]| <= limits.maxEntryOutputBytes
    ensures SizesAgree(SizesOf(f), Some(|Checksums.Concat(members)|), limits)
  {
    hide Checksums.Concat, Sum;
    SizesFilled(f, members, limits);
    forall j | 0 <= j < |members|
      ensures SizesOf(f)[j] == Some(Lengths(members)[j]) && Lengths(members)[j] == |members[j]|
    {
    }
  }

  lemma MemberCut(f: Folder, members: seq<Bytes>, j: nat, limits: Limits)
    requires MembersHeld(members) && |f.substreams| == |members| && j < |members|
    requires forall j :: 0 <= j < |members| ==> f.substreams[j].size == Some(Lengths(members)[j])
    ensures
      var start := StartOf(f, j, limits.maxEntryOutputBytes);
      var end := EndOf(f, j, limits.maxEntryOutputBytes, |Checksums.Concat(members)|);
      && start <= end == start + |members[j]| <= |Checksums.Concat(members)|
      && Checksums.Concat(members)[start..end] == members[j]
  {
    hide Checksums.Concat, Sum;
    SizesFilled(f, members, limits);
    ConcatLength(members, j);
    MemberStands(members, |members|, j);
    assert members[..|members|] == members;
    AtBounds(Checksums.Concat(members), |Checksums.Concat(members[..j])|, members[j]);
  }

  lemma FolderServes(a: Archive, contents: seq<seq<Bytes>>, position: u64, envelope: Envelope, tables: Tables, i: nat)
    requires ContentsHeld(contents) && KnowsCopy(tables) && Stands(contents, position, envelope, a.bytes)
    requires a.streams.Some?
      && StreamsOk(a.streams.value, WrittenStreams(contents, position), envelope, a.bytes, tables)
    requires Extractable(contents, a.limits) && i < |contents|
    ensures HasFolder(a, i) && StreamServes(a, FolderAt(a, i), Checksums.Concat(contents[i]))
  {
    hide StreamsOk, Checksums.Crc, Checksums.Concat, SizesAgree, Stands, Lengths, Sum;
    var info := a.streams.value;
    HeldAt(contents, i);
    FolderReturned(info, contents, position, envelope, a.bytes, tables, i);
    MembersReturned(info, contents, position, envelope, a.bytes, tables, i);
    StreamReturned(info, contents, position, envelope, a.bytes, tables, i);
    SizesServe(FolderAt(a, i), contents[i], a.limits);
    SizesFilled(FolderAt(a, i), contents[i], a.limits);
  }

  lemma MemberServed(a: Archive, contents: seq<seq<Bytes>>, position: u64, envelope: Envelope, tables: Tables, i: nat,
                     j: nat)
    requires ContentsHeld(contents) && KnowsCopy(tables)
    requires a.streams.Some?
      && StreamsOk(a.streams.value, WrittenStreams(contents, position), envelope, a.bytes, tables)
    requires Extractable(contents, a.limits) && i < |contents| && j < |contents[i]|
    ensures HasFolder(a, i) && j < |FolderAt(a, i).substreams|
    ensures MemberServes(a, FolderAt(a, i), j, Checksums.Concat(contents[i]), contents[i][j])
  {
    hide StreamsOk, Checksums.Crc, Checksums.Concat, StartOf, EndOf, Lengths;
    var info := a.streams.value;
    HeldAt(contents, i);
    FolderReturned(info, contents, position, envelope, a.bytes, tables, i);
    MembersReturned(info, contents, position, envelope, a.bytes, tables, i);
    MemberCut(FolderAt(a, i), contents[i], j, a.limits);
  }

  /** Every streamed entry of a stored archive is extracted as the member it maps to. */
  lemma StoredMemberExtracted(a: Archive, contents: seq<seq<Bytes>>, position: u64, envelope: Envelope, tables: Tables,
                              x: nat)
    requires ContentsHeld(contents) && KnowsCopy(tables) && Stands(contents, position, envelope, a.bytes)
    requires ValidArchive(a) && a.streams.Some?
      && StreamsOk(a.streams.value, WrittenStreams(contents, position), envelope, a.bytes, tables)
    requires Extractable(contents, a.limits) && x < |a.entries| && a.entries[x].stream.Some?
    ensures
      var m := a.entries[x].stream.value;
      && m.folder < |contents| && m.substream < |contents[m.folder]|
      && Extracted(a, x) == Some(contents[m.folder][m.substream])
  {
    hide StreamsOk, ValidArchive, Stands, Extractable, Extracted, StreamServes, MemberServes, OneCopy, MembersHeld,
         Checksums.Concat, Checksums.Crc, WrittenStreams;
    var m := a.entries[x].stream.value;
    EntryPlace(a, x);
    FoldersCount(a.streams.value, contents, position, envelope, a.bytes, tables);
    FolderReturned(a.streams.value, contents, position, envelope, a.bytes, tables, m.folder);
    MembersReturned(a.streams.value, contents, position, envelope, a.bytes, tables, m.folder);
    FolderServes(a, contents, position, envelope, tables, m.folder);
    MemberServed(a, contents, position, envelope, tables, m.folder, m.substream);
    StoredEntryExtracted(a, x, contents[m.folder][m.substream]);
  }

  lemma FoldersCount(info: StreamsInfo, contents: seq<seq<Bytes>>, position: u64, envelope: Envelope, archive: Bytes,
                     tables: Tables)
    requires ContentsHeld(contents)
    requires StreamsOk(info, WrittenStreams(contents, position), envelope, archive, tables)
    ensures |info.folders| == |contents|
  {
    hide PackStreamsOk, DraftOf, DividedOk, MembersHeld, LaidSizes, LaidCrcs, TotalBefore, PackedBefore, CountsOf,
         Checksums.Concat, Checksums.Crc;
  }
}
