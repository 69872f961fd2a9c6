/** What header validation accepts is what extraction needs, from the header bytes on. */
module ValidatedArchives {
  import opened Support
  import opened Sequences
  import opened Model
  import opened Folders
  import opened Evaluation
  import opened Execution
  import opened FolderValidation
  import opened StreamValidation
  import opened HeaderValidation
  import opened FileMapping
  import opened StreamSyntax
  import opened HeaderSyntax
  import opened FileDetails
  import opened NextHeaders
  import opened Ranges
  import opened Archives

  lemma FoldersAreReady(info: StreamsInfo, raw: RawStreamsInfo, envelope: Envelope, bytes: Bytes, tables: Tables)
    requires StreamsOk(info, raw, envelope, bytes, tables)
    ensures forall f :: f in info.folders ==> ValidFolder(f) && AllAvailable(bytes, info.packStreams, f)
  {
    hide StreamsOk, ValidFolder, AllAvailable;
    forall f | f in info.folders ensures ValidFolder(f) && AllAvailable(bytes, info.packStreams, f) {
      var i :| 0 <= i < |info.folders| && info.folders[i] == f;
      FolderReady(info, raw, envelope, bytes, tables, i);
    }
  }

  /** The entries' stream-less flags are the EmptyStream bits. */
  lemma StreamlessFlags(files: FileList, raw: RawFiles, streams: Option<StreamsInfo>, additionalFolders: nat)
    requires FilesOk(files, raw, streams, additionalFolders)
    ensures Streamless(files.entries) == Flags(raw.emptyStream, raw.count)
    ensures |AllStreams(streams)| == StreamIndex(Flags(raw.emptyStream, raw.count), raw.count)
  {
    hide Flags, AllStreams, SetBefore;
  }

  /** A file list of the validated streams maps its entries as extraction expects. */
  lemma FilesAreMapped(files: FileList, raw: RawFiles, additionalFolders: nat, a: Archive)
    requires FilesOk(files, raw, a.streams, additionalFolders) && a.entries == files.entries
    ensures Mapped(a)
  {
    hide FilesOk, Flags, AllStreams, StreamIndex;
    StreamlessFlags(files, raw, a.streams, additionalFolders);
    forall x: nat | x < |a.entries| && !Streamless(a.entries)[x]
      ensures !a.entries[x].isAnti
      ensures StreamIndex(Streamless(a.entries), x) < |AllStreams(a.streams)|
      ensures a.entries[x].stream == Some(AllStreams(a.streams)[StreamIndex(Streamless(a.entries), x)])
    {
      EntryStream(files, raw, a.streams, additionalFolders, x);
    }
  }

  /** The archive a header describes; without a file list it has no entries. */
  function ArchiveOf(h: ArchiveHeader, bytes: Bytes, limits: Limits, codec: CodecFn): Archive {
    Archive(bytes, h.main, if h.files.Some? then h.files.value.files.entries else [], limits, codec)
  }

  /** A validated header makes a valid archive, with or without streams, with or without files. */
  lemma ValidatedIsValid(h: ArchiveHeader, raw: RawHeader, envelope: Envelope, bytes: Bytes, tables: Tables,
                         limits: Limits, codec: CodecFn)
    requires HeaderOk(h, raw, envelope, bytes, tables) && |bytes| <= U64_MAX
    ensures ValidArchive(ArchiveOf(h, bytes, limits, codec))
  {
    hide StreamsOk, FilesOk, SlotsOk, ValidFolder, AllAvailable, Mapped, SectionRanges, Disjoint, UnknownOf;
    var a := ArchiveOf(h, bytes, limits, codec);
    if h.main.Some? {
      FoldersAreReady(h.main.value, raw.main.value, envelope, bytes, tables);
    }
    if h.files.Some? {
      var info, folders := raw.files.value, FolderCount(h.additional);
      var slots :| SlotsOk(slots, info.properties)
          && FilesOk(h.files.value.files, FilesOf(info.count, slots), h.main, folders);
      FilesAreMapped(h.files.value.files, FilesOf(info.count, slots), folders, a);
    } else {
      NoneMapped(a);
    }
  }

  lemma NoneMapped(a: Archive)
    requires a.entries == []
    ensures Mapped(a)
  {
  }

  lemma NextIsValid(h: ParsedNextHeader, raw: RawNextHeader, envelope: Envelope, bytes: Bytes, tables: Tables,
                    limits: Limits, codec: CodecFn)
    requires NextOk(h, raw, envelope, bytes, tables) && |bytes| <= U64_MAX
    ensures h.PlainHeader? ==> ValidArchive(ArchiveOf(h.header, bytes, limits, codec))
  {
    hide HeaderOk, ValidArchive, StreamsOk, PendingOk;
    if h.PlainHeader? {
      ValidatedIsValid(h.header, raw.header, envelope, bytes, tables, limits, codec);
    }
  }

  // ----- From the bytes.

  lemma SyntaxIsNoLength(e: Error)
    requires SyntaxFault(e) || Interruption(e) || e == LimitExceeded(HeaderBytes)
    ensures !LengthFault(e)
  {
  }

  /** The bytes hold a header, and all it declares is acceptable. */
  ghost predicate BytesAcceptable(bytes: Bytes, external: Option<ExternalFolderData>, envelope: Envelope,
                                  archive: Bytes, tables: Tables, limits: Limits) {
    var raw := NextHeaderAt(bytes, limits, external);
    |bytes| <= limits.maxHeaderBytes && raw.Success? && NextAcceptable(raw.value, envelope, archive, tables, limits)
  }

  /** Parses and validates header bytes, whatever they are: accepts exactly the acceptable
      ones, unless it is interrupted; none of the count, vector-length and cursor errors of
      `LengthFault` is ever the reason for a refusal; and a complete header is all that
      extraction needs. */
  method OpenNextHeader(bytes: Bytes, external: Option<ExternalFolderData>, envelope: Envelope, archive: Bytes,
                        tables: Tables, limits: Limits, control: ParseControl, ghost codec: CodecFn)
      returns (r: Result<ParsedNextHeader>)
    requires |bytes| <= U64_MAX && |archive| <= U64_MAX && (external.Some? ==> |external.value.bytes| <= U64_MAX)
    modifies control
    ensures r.Success? ==>
      var raw := NextHeaderAt(bytes, limits, external);
      raw.Success? && NextOk(r.value, raw.value, envelope, archive, tables)
    ensures r.Success? && r.value.PlainHeader? ==> ValidArchive(ArchiveOf(r.value.header, archive, limits, codec))
    ensures r.Success? ==>
      |bytes| <= limits.maxHeaderBytes && BytesAcceptable(bytes, external, envelope, archive, tables, limits)
    ensures r.Failure? ==>
      (Interrupted(r) && control.stopped) || !BytesAcceptable(bytes, external, envelope, archive, tables, limits)
    ensures r.Failure? ==> !LengthFault(r.error)
  {
    hide NextOk, NextCounted, NextAcceptable, LengthFault, SyntaxFault, ValidArchive;
    if |bytes| > limits.maxHeaderBytes {
      SyntaxIsNoLength(LimitExceeded(HeaderBytes));
      return Failure(LimitExceeded(HeaderBytes));
    }
    var raw := ParseNextHeader(bytes, limits, control, external);
    if raw.Failure? {
      SyntaxIsNoLength(raw.error);
      return Failure(raw.error);
    }
    r := ValidateNextHeader(raw.value, envelope, archive, tables, limits, control);
    if r.Success? {
      NextIsValid(r.value, raw.value, envelope, archive, tables, limits, codec);
    }
  }
}
