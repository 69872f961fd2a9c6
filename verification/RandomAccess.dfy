/** Opening and extracting one member. */
module RandomAccess {
  import opened Support
  import opened Folders
  import opened Evaluation
  import opened Execution
  import opened FileMapping
  import opened Slicing
  import opened Members
  import opened Archives
  import Sinks
  import Checksums
  import HeaderValidation

  /** Rejections of an encrypted folder's contents are blamed on the password. */
  function MapEncryptedError(e: Error, encrypted: bool): (mapped: Error)
    ensures Interruption(mapped) <==> Interruption(e)
  {
    if encrypted && (e.Format? || e.Checksum?) then WrongPasswordOrCorrupt else e
  }

  /** Decodes folder i with room for `remaining` bytes. */
  method DecodeWithin(a: Archive, i: nat, remaining: u64, control: ParseControl, ghost log: DecodeLog)
      returns (r: Result<DecodedFolder>)
    requires ValidArchive(a) && HasFolder(a, i)
    modifies control, log
    ensures log.decoded == old(log.decoded) || log.decoded == old(log.decoded) + [i]
    ensures r.Success? ==> log.decoded == old(log.decoded) + [i]
    ensures r.Success? ==>
      && WholeFolder(a, i, remaining) == Some(r.value.bytes) && |r.value.bytes| <= remaining
      && r.value.crcMismatch == !Sinks.CrcFits(r.value.bytes, FolderAt(a, i).crc)
      && r.value.encrypted == Encrypted(FolderAt(a, i))
    ensures r.Failure? ==>
      (Interrupted(r) && control.stopped) || (WholeFolder(a, i, remaining).None? && DecodeFault(r.error))
    ensures r.Failure? ==> MaximumFault(r.error) || Interruption(r.error) || Blamed(a, i, remaining, r.error)
    ensures old(control.Ample(DecodeWithinWork(a, i, remaining))) ==> !Interrupted(r)
    ensures r.Success? ==> exists spent: nat :: spent <= DecodeWithinWork(a, i, remaining) && control.Charged(spent)
  {
    hide ValidArchive, AllIntact, AllAvailable, Admitted, Sound, EvalRoot, Decodable, DecodeMaximum, PropertiesOk;
    hide ArityOk, DecodeWork;
    FolderIsReady(a, i);
    BytesStored(a);
    var f := FolderAt(a, i);
    var maximumOutput :- FolderDecodeMaximum(f, a.limits, remaining, control);
    var decoded := DecodeFolder(a.bytes, a.streams.value.packStreams, f, a.codec, a.limits, maximumOutput, control, i,
                                log);
    if decoded.Failure? {
      CauseBlamed(a, i, remaining, decoded.error);
      return Failure(MapEncryptedError(decoded.error, Encrypted(f)));
    }
    assert control.Charged(|f.substreams| + DecodeWork(a.streams.value.packStreams, f) + if f.crc.Some?
                           then |decoded.value.bytes| else 0);
    return decoded;
  }

  /** The error is that of decoding the folder, unless the folder is encrypted and its
      contents were rejected. */
  ghost predicate Blamed(a: Archive, i: nat, remaining: nat, e: Error)
    requires ValidArchive(a) && HasFolder(a, i)
  {
    var f := FolderAt(a, i);
    var encrypted := exists coder :: coder in f.coders && coder.kind == Aes;
    exists cause ::
      && Undecodable(a.bytes, a.streams.value.packStreams, f, a.codec, a.limits, Cap(a, i, remaining), cause)
      && e == if encrypted && (cause.Format? || cause.Checksum?) then WrongPasswordOrCorrupt else cause
  }

  lemma CauseBlamed(a: Archive, i: nat, remaining: nat, cause: Error)
    requires ValidArchive(a) && HasFolder(a, i)
    ensures
      var f := FolderAt(a, i);
      Undecodable(a.bytes, a.streams.value.packStreams, f, a.codec, a.limits, Cap(a, i, remaining), cause)
      ==> Blamed(a, i, remaining, MapEncryptedError(cause, Encrypted(f)))
  {
    hide ValidArchive, Undecodable;
  }

  lemma BytesStored(a: Archive)
    requires ValidArchive(a)
    ensures |a.bytes| <= U64_MAX
  {
  }

  function DecodeWithinWork(a: Archive, i: nat, remaining: nat): nat
    requires HasFolder(a, i)
  {
    var f := FolderAt(a, i);
    |f.substreams| + DecodeWork(a.streams.value.packStreams, f) + if f.crc.Some? then Cap(a, i, remaining) else 0
  }

  /** What decoding itself is rejected with. */
  predicate DecodeFault(e: Error) {
    || MaximumFault(e) || AdmissionError(e) || CoderFailure(e) || e.Checksum? || e == WrongPasswordOrCorrupt
  }

  // ----- One member.

  /** Work enough to open entry x and read it to the end. */
  function ExtractWork(a: Archive, x: nat): nat {
    if x < |a.entries| && a.entries[x].stream.Some? && HasFolder(a, a.entries[x].stream.value.folder) then
      var i := a.entries[x].stream.value.folder;
      DecodeWithinWork(a, i, a.limits.maxTotalOutputBytes) + a.entries[x].stream.value.substream + 1
        + a.limits.maxEntryOutputBytes
    else 0
  }

  lemma TooLargeToOpen(a: Archive, x: nat)
    requires ValidArchive(a) && x < |a.entries| && a.entries[x].stream.Some?
    requires a.entries[x].stream.value.size.Some? && a.entries[x].stream.value.size.value > a.limits.maxEntryOutputBytes
    ensures Opening(a, x).None?
  {
    hide ValidArchive, Permitted, AllIntact, Admitted;
    EntryPlace(a, x);
    var m := a.entries[x].stream.value;
    var f := FolderAt(a, m.folder);
    assert SizesOf(f)[m.substream] == m.size;
  }

  lemma OpeningOf(a: Archive, x: nat)
    requires ValidArchive(a) && x < |a.entries| && a.entries[x].stream.Some?
    ensures
      var m := a.entries[x].stream.value;
      && HasFolder(a, m.folder) && m.substream < |FolderAt(a, m.folder).substreams|
      && Opening(a, x)
           == var whole := WholeFolder(a, m.folder, a.limits.maxTotalOutputBytes);
              if whole.None? then None
              else CutOf(FolderAt(a, m.folder), m.substream, whole.value, a.limits.maxEntryOutputBytes)
  {
    hide ValidArchive, WholeFolder, CutOf;
    EntryPlace(a, x);
  }

  /** The folder is decoded, and the member's range found; integrity is left to the reader. */
  method OpenMember(a: Archive, x: nat, control: ParseControl, ghost log: DecodeLog) returns (r: Result<MemberReader>)
    requires ValidArchive(a)
    modifies control, log
    ensures r.Success? ==>
      && fresh(r.value) && fresh(r.value.checksum) && r.value.Valid() && r.value.position == 0
         && r.value.control == control
      && Opening(a, x).Some?
      && r.value.Bytes() == Opening(a, x).value.whole[Opening(a, x).value.start..Opening(a, x).value.end]
      && (r.value.Verdict().Success? <==> Extracted(a, x).Some?)
    ensures r.Failure? ==> (Interrupted(r) && control.stopped) || Opening(a, x).None?
    ensures old(control.Ample(ExtractWork(a, x))) ==>
      !Interrupted(r) && (r.Success? ==> control.Ample(|r.value.Bytes()|))
  {
    hide ValidArchive, WholeFolder, DecodeFault, DecodeWithinWork, Cuttable, EndsInside, Offset, Checksums.Crc;
    if x >= |a.entries| {
      return Failure(Format(MemberIndexOutside));
    }
    if a.entries[x].isAnti {
      return Failure(UnsupportedFeature(AntiItemExtraction));
    }
    if a.entries[x].stream.None? {
      if a.entries[x].isEmptyFile {
        var reader := new MemberReader([], 0, 0, None, false, false, x, control);
        return Success(reader);
      }
      return Failure(UnsupportedFeature(StreamlessDirectoryExtraction));
    }
    r := OpenStreamed(a, x, a.entries[x].stream.value, control, log);
  }

  method OpenStreamed(a: Archive, x: nat, m: FileStream, control: ParseControl, ghost log: DecodeLog)
      returns (r: Result<MemberReader>)
    requires ValidArchive(a) && x < |a.entries| && a.entries[x].stream == Some(m)
    modifies control, log
    ensures r.Success? ==>
      && fresh(r.value) && fresh(r.value.checksum) && r.value.Valid() && r.value.position == 0
         && r.value.control == control
      && Opening(a, x).Some?
      && r.value.Bytes() == Opening(a, x).value.whole[Opening(a, x).value.start..Opening(a, x).value.end]
      && (r.value.Verdict().Success? <==> Extracted(a, x).Some?)
    ensures r.Failure? ==> (Interrupted(r) && control.stopped) || Opening(a, x).None?
    ensures old(control.Ample(ExtractWork(a, x))) ==>
      !Interrupted(r) && (r.Success? ==> control.Ample(|r.value.Bytes()|))
  {
    hide ValidArchive, WholeFolder, DecodeFault, DecodeWithinWork, EndsInside, Offset, Checksums.Crc;
    hide Mappings, HeaderValidation.SubstreamsBefore, StreamIndex;
    EntryPlace(a, x);
    OpeningOf(a, x);
    if m.size.Some? && m.size.value > a.limits.maxEntryOutputBytes {
      TooLargeToOpen(a, x);
      return Failure(LimitExceeded(EntryOutputBytes));
    }
    var f := FolderAt(a, m.folder);
    var decoded :- DecodeWithin(a, m.folder, a.limits.maxTotalOutputBytes, control, log);
    var bounds :- MemberBounds(f, m.substream, |decoded.bytes|, control);
    if bounds.end < bounds.start {
      return Failure(Format(MemberRangeOutside));
    }
    var _ :- CheckLimit(bounds.end - bounds.start, a.limits.maxEntryOutputBytes, EntryOutputBytes);
    var reader := new MemberReader(decoded.bytes, bounds.start, bounds.end, m.crc, decoded.crcMismatch,
                                   decoded.encrypted, x, control);
    return Success(reader);
  }

  /** Succeeds exactly when the member can be opened and every checksum fits. */
  method ExtractEntry(a: Archive, x: nat, control: ParseControl, ghost log: DecodeLog) returns (r: Result<Bytes>)
    requires ValidArchive(a)
    modifies control, log
    ensures r.Success? ==> Extracted(a, x) == Some(r.value)
    ensures r.Failure? ==> (Interrupted(r) && control.stopped) || Extracted(a, x).None?
    ensures old(control.Ample(ExtractWork(a, x))) ==> (r.Success? <==> Extracted(a, x).Some?)
  {
    hide ValidArchive, OpeningWithin, FolderFits, ExtractWork;
    var reader :- OpenMember(a, x, control, log);
    r := reader.IntoBytes();
  }
}
