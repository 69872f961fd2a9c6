/** Extraction from a stored folder, end to end and without its parts: exactly when a
    member can be extracted, and which bytes of the archive it is. */
module StoredArchives {
  import opened Support
  import opened Model
  import opened Folders
  import opened Evaluation
  import opened Execution
  import opened Slicing
  import opened Archives
  import opened Sinks
  import RandomAccess
  import Checksums

  // ----- Sizes, an unknown one counting for as much as one entry may have.

  function Filled(sizes: seq<Option<u64>>, maxEntry: u64): (filled: seq<u64>)
    ensures |filled| == |sizes|
  {
    seq(|sizes|, k requires 0 <= k < |sizes| => if sizes[k].Some? then sizes[k].value else maxEntry)
  }

  lemma {:induction false} PermittedIsSum(sizes: seq<Option<u64>>, maxEntry: u64, k: nat)
    requires k <= |sizes|
    ensures Permitted(sizes, k, maxEntry) == Sum(Filled(sizes, maxEntry)[..k])
    decreases k
  {
    if k > 0 {
      var filled := Filled(sizes, maxEntry);
      PermittedIsSum(sizes, maxEntry, k - 1);
      SumAppend(filled[..k - 1], filled[k - 1]);
      assert filled[..k] == filled[..k - 1] + [filled[k - 1]];
    }
  }

  /** Only the last size is unknown, none is over the limit, and the folder's declared
      size is their sum if all are known. */
  predicate SizesAgree(sizes: seq<Option<u64>>, root: Option<u64>, limits: Limits) {
    var total := Sum(Filled(sizes, limits.maxEntryOutputBytes));
    && |sizes| > 0 && (forall k :: 0 <= k < |sizes| - 1 ==> sizes[k].Some?)
    && (forall k :: 0 <= k < |sizes| && sizes[k].Some? ==> sizes[k].value <= limits.maxEntryOutputBytes)
    && total <= U64_MAX && (sizes[|sizes| - 1].Some? ==> root.Some? && root.value == total)
    && (root.Some? ==> root.value <= limits.maxTotalOutputBytes)
  }

  lemma DecodableMeans(sizes: seq<Option<u64>>, root: Option<u64>, limits: Limits)
    requires |sizes| > 0
    ensures Decodable(sizes, root, limits.maxEntryOutputBytes, limits.maxTotalOutputBytes)
      <==> SizesAgree(sizes, root, limits)
    ensures
      var total := Sum(Filled(sizes, limits.maxEntryOutputBytes));
      DecodeMaximum(sizes, limits.maxEntryOutputBytes, limits.maxTotalOutputBytes)
      == if total < limits.maxTotalOutputBytes then total else limits.maxTotalOutputBytes
  {
    hide Permitted, Sum;
    var n := |sizes|;
    PermittedIsSum(sizes, limits.maxEntryOutputBytes, n);
    assert Filled(sizes, limits.maxEntryOutputBytes)[..n] == Filled(sizes, limits.maxEntryOutputBytes);
    if OnlyLastUnknown(sizes) && sizes[n - 1].Some? {
      assert AllKnown(sizes);
    }
  }

  // ----- The folder.

  /** The packed stream of a stored folder. */
  function StreamOfFolder(a: Archive, f: Folder): PackStream
    requires a.streams.Some? && f.firstPackStream < |a.streams.value.packStreams|
  {
    a.streams.value.packStreams[f.firstPackStream]
  }

  predicate OneCopy(f: Folder) {
    && |f.coders| == 1 && f.coders[0].kind == Copy && f.coders[0].inputCount == f.coders[0].outputCount == 1
    && |f.coders[0].properties| == 0
  }

  /** The packed stream is there, undamaged, and as long as everything allows. */
  predicate StreamServes(a: Archive, f: Folder, bytes: Bytes) {
    var sizes := SizesOf(f);
    && a.streams.Some? && f.firstPackStream < |a.streams.value.packStreams| && |f.unpackSizes| == 1
    && f.dictionaryBytes <= a.limits.maxDictionaryBytes
    && var s := StreamOfFolder(a, f);
       && s.size.Some? && s.offset + s.size.value <= |a.bytes|
       && bytes == a.bytes[s.offset..s.offset + s.size.value]
       && (s.crc.Some? ==> Checksums.Crc(bytes) == s.crc.value)
       && SizesAgree(sizes, f.unpackSizes[0], a.limits)
       && |bytes| <= Sum(Filled(sizes, a.limits.maxEntryOutputBytes)) && |bytes| <= a.limits.maxTotalOutputBytes
       && (f.unpackSizes[0].Some? ==> f.unpackSizes[0].value == |bytes|)
  }

  lemma CopyRegistered(f: Folder, limits: Limits, maximum: nat)
    requires OneCopy(f)
    ensures Admitted(f, limits, maximum) <==>
      f.dictionaryBytes <= limits.maxDictionaryBytes && (RootSize(f).Some? ==> RootSize(f).value <= maximum)
  {
    assert f.coders == [f.coders[0]];
  }

  /** One packed stream: all intact means it is intact. */
  lemma OneIntact(archive: Bytes, streams: seq<PackStream>, f: Folder)
    requires |f.packedInputs| == 1 && AllAvailable(archive, streams, f)
    ensures f.firstPackStream < |streams| && streams[f.firstPackStream].size.Some?
    ensures
      var s := streams[f.firstPackStream];
      && s.offset + s.size.value <= |archive|
      && (AllIntact(archive, streams, f) <==>
          s.crc.Some? ==> Checksums.Crc(archive[s.offset..s.offset + s.size.value]) == s.crc.value)
  {
    hide Checksums.Crc;
    assert Available(archive, streams, f.firstPackStream);
    if AllIntact(archive, streams, f) {
      assert StreamIntact(archive, streams, f.firstPackStream);
    }
  }

  /** A stored folder decodes to its packed stream if and only if that serves. */
  lemma StoredWhole(a: Archive, i: nat, bytes: Bytes)
    requires ValidArchive(a) && HasFolder(a, i) && OneCopy(FolderAt(a, i)) && |FolderAt(a, i).substreams| > 0
    ensures WholeFolder(a, i, a.limits.maxTotalOutputBytes) == Some(bytes) <==> StreamServes(a, FolderAt(a, i), bytes)
  {
    hide ValidArchive, ValidFolder, AllAvailable, AllIntact, Admitted, Decodable, DecodeMaximum, EvalRoot, Sound,
         SizesAgree, Checksums.Crc, Sum;
    var f, streams, remaining := FolderAt(a, i), a.streams.value.packStreams, a.limits.maxTotalOutputBytes;
    var cap := Cap(a, i, remaining);
    FolderIsReady(a, i);
    StoredShape(f);
    OneIntact(a.bytes, streams, f);
    DecodableMeans(SizesOf(f), f.unpackSizes[0], a.limits);
    CopyRegistered(f, a.limits, cap);
    if Admitted(f, a.limits, cap) {
      StoredFolder(a.bytes, streams, f, a.codec, a.limits, cap);
    }
  }

  // ----- One member.

  /** Where member j starts: behind the sizes before it. */
  function StartOf(f: Folder, j: nat, maxEntry: u64): nat
    requires j <= |f.substreams|
  {
    Sum(Filled(SizesOf(f), maxEntry)[..j])
  }

  /** Where it ends: behind its size, or with the folder if that is unknown. */
  function EndOf(f: Folder, j: nat, maxEntry: u64, folderSize: nat): nat
    requires j < |f.substreams|
  {
    if f.substreams[j].size.Some? then StartOf(f, j, maxEntry) + f.substreams[j].size.value else folderSize
  }

  lemma MemberRange(f: Folder, j: nat, limits: Limits, folderSize: nat)
    requires j < |f.substreams| && SizesAgree(SizesOf(f), RootSize(f), limits)
    ensures
      var sizes := SizesOf(f);
      && Offset(sizes, j, folderSize) == StartOf(f, j, limits.maxEntryOutputBytes)
      && Offset(sizes, j + 1, folderSize) == EndOf(f, j, limits.maxEntryOutputBytes, folderSize)
  {
    hide Sum, Permitted;
    OffsetIsPermitted(SizesOf(f), j, limits.maxEntryOutputBytes, folderSize);
    PermittedIsSum(SizesOf(f), limits.maxEntryOutputBytes, j);
  }

  lemma StoredCut(f: Folder, j: nat, limits: Limits, whole: Bytes)
    requires j < |f.substreams| && SizesAgree(SizesOf(f), RootSize(f), limits)
    ensures
      var start, end := StartOf(f, j, limits.maxEntryOutputBytes), EndOf(f, j, limits.maxEntryOutputBytes, |whole|);
      CutOf(f, j, whole, limits.maxEntryOutputBytes)
      == if start <= end <= |whole| && end - start <= limits.maxEntryOutputBytes then Some(Cut(whole, start, end))
         else None
  {
    hide Sum, Permitted, Offset, StartOf, EndOf;
    MemberRange(f, j, limits, |whole|);
  }

  /** The member is these bytes of the folder, and both checksums fit. */
  predicate MemberServes(a: Archive, f: Folder, j: nat, whole: Bytes, member: Bytes)
    requires j < |f.substreams|
  {
    var start := StartOf(f, j, a.limits.maxEntryOutputBytes);
    var end := EndOf(f, j, a.limits.maxEntryOutputBytes, |whole|);
    && start <= end <= |whole| && end - start <= a.limits.maxEntryOutputBytes && member == whole[start..end]
    && (f.substreams[j].crc.Some? ==> Checksums.Crc(member) == f.substreams[j].crc.value)
    && (f.crc.Some? ==> Checksums.Crc(whole) == f.crc.value)
  }

  lemma ExtractionOf(a: Archive, x: nat)
    requires ValidArchive(a) && x < |a.entries| && a.entries[x].stream.Some?
    ensures
      var m := a.entries[x].stream.value;
      && HasFolder(a, m.folder) && m.substream < |FolderAt(a, m.folder).substreams|
      && Extracted(a, x) ==
         var f := FolderAt(a, m.folder);
         var whole := WholeFolder(a, m.folder, a.limits.maxTotalOutputBytes);
         var cut := if whole.None? then None else CutOf(f, m.substream, whole.value, a.limits.maxEntryOutputBytes);
         if cut.None? then None
         else
           var bytes := cut.value.whole[cut.value.start..cut.value.end];
           if CrcFits(bytes, f.substreams[m.substream].crc) && CrcFits(cut.value.whole, f.crc) then Some(bytes)
           else None
  {
    hide ValidArchive, WholeFolder, CutOf, CrcFits;
    EntryPlace(a, x);
    RandomAccess.OpeningOf(a, x);
  }

  /** An entry of a stored folder is extracted as `member` if and only if its packed
      stream serves and the member is that part of it. */
  lemma StoredEntryExtracted(a: Archive, x: nat, member: Bytes)
    requires ValidArchive(a) && x < |a.entries| && a.entries[x].stream.Some?
    requires HasFolder(a, a.entries[x].stream.value.folder) && OneCopy(FolderAt(a, a.entries[x].stream.value.folder))
    ensures
      var m := a.entries[x].stream.value;
      var f := FolderAt(a, m.folder);
      && m.substream < |f.substreams|
      && (Extracted(a, x) == Some(member) <==>
          exists whole :: StreamServes(a, f, whole) && MemberServes(a, f, m.substream, whole, member))
  {
    hide ValidArchive, WholeFolder, Extracted, CutOf, StreamServes, SizesAgree, Checksums.Crc, StartOf, EndOf;
    var m := a.entries[x].stream.value;
    var f := FolderAt(a, m.folder);
    ExtractionOf(a, x);
    var found := WholeFolder(a, m.folder, a.limits.maxTotalOutputBytes);
    if found.Some? {
      StoredWhole(a, m.folder, found.value);
      StreamSizesAgree(a, m.folder, found.value);
      StoredCut(f, m.substream, a.limits, found.value);
    }
    forall whole | StreamServes(a, f, whole) ensures found == Some(whole) {
      StoredWhole(a, m.folder, whole);
    }
  }

  lemma StreamSizesAgree(a: Archive, i: nat, whole: Bytes)
    requires ValidArchive(a) && HasFolder(a, i) && OneCopy(FolderAt(a, i)) && StreamServes(a, FolderAt(a, i), whole)
    ensures SizesAgree(SizesOf(FolderAt(a, i)), RootSize(FolderAt(a, i)), a.limits)
  {
    hide ValidArchive, ValidFolder, SizesAgree, Checksums.Crc, Sum, AllAvailable;
    FolderIsReady(a, i);
    StoredShape(FolderAt(a, i));
  }
}
