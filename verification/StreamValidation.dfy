/** Validation of a StreamsInfo record: where the packed streams lie, which folder
    each of them feeds, and how the folders divide into substreams. */
module StreamValidation {
  import opened Support
  import opened Model
  import opened Graph
  import opened Folders
  import opened SubstreamSyntax
  import opened StreamSyntax
  import opened FolderValidation
  import opened Ranges

  const FIXED_HEADER_SIZE: nat := 32

  datatype Envelope = Envelope(signatureOffset: u64, nextHeaderOffset: u64)

  // ----- Packed streams.

  function SizesBefore(sizes: seq<u64>, k: nat): nat
    requires k <= |sizes|
  {
    if k == 0 then 0 else SizesBefore(sizes, k - 1) + sizes[k - 1]
  }

  function SectionStart(pack: RawPackInfo, envelope: Envelope): nat {
    envelope.signatureOffset + FIXED_HEADER_SIZE + pack.position
  }

  /** Stream k of a section: right after the streams before it. */
  function PackStreamOf(pack: RawPackInfo, envelope: Envelope, k: nat): PackStream
    requires pack.sizes.Some? && k < |pack.sizes.value|
  {
    PackStream(SectionStart(pack, envelope) + SizesBefore(pack.sizes.value, k), Some(pack.sizes.value[k]),
               CrcFor(pack.crcs, k))
  }

  predicate Placed(s: PackStream, envelope: Envelope, archive: Bytes) {
    && s.size.Some?
    && s.offset + s.size.value <= envelope.nextHeaderOffset
    && s.offset + s.size.value <= |archive|
  }

  predicate PackStreamsOk(streams: seq<PackStream>, pack: RawPackInfo, envelope: Envelope, archive: Bytes) {
    && pack.sizes.Some? && |streams| == |pack.sizes.value| == pack.streams
    && forall k :: 0 <= k < |streams| ==>
      streams[k] == PackStreamOf(pack, envelope, k) && Placed(streams[k], envelope, archive)
  }

  function SectionRange(pack: RawPackInfo, envelope: Envelope): (ranges: seq<Range>)
    requires pack.sizes.Some?
    ensures Proper(ranges)
  {
    var start := SectionStart(pack, envelope);
    var end := start + SizesBefore(pack.sizes.value, |pack.sizes.value|);
    if end > start then [Range(start, end)] else []
  }

  lemma ProperSum(a: seq<Range>, b: seq<Range>)
    requires Proper(a) && Proper(b)
    ensures Proper(a + b)
  {
  }

  lemma PackFaults(pack: RawPackInfo)
    ensures forall e :: Interruption(e) || e.UnsupportedFeature? ==> !LengthFault(e)
    ensures !LengthFault(Format(MissingPackSizes)) && !LengthFault(Format(PackRangeOverflows))
    ensures !LengthFault(Format(PackOverlapsNextHeader)) && !LengthFault(Format(PackRangeOutsideArchive))
    ensures PackCounted(pack) && pack.sizes.Some? ==> |pack.sizes.value| == pack.streams
    ensures PackCounted(pack) && pack.crcs.Some? ==> |pack.crcs.value| == pack.streams
  {
  }

  /** Stream k has a known size and ends before the next header and in the archive. */
  predicate StreamAcceptable(pack: RawPackInfo, envelope: Envelope, archive: Bytes, k: nat)
    requires pack.sizes.Some? && k < |pack.sizes.value|
  {
    var end := SectionStart(pack, envelope) + SizesBefore(pack.sizes.value, k + 1);
    pack.sizes.value[k] != UNKNOWN_SIZE && end <= envelope.nextHeaderOffset && end <= |archive|
  }

  predicate PackAcceptable(pack: RawPackInfo, envelope: Envelope, archive: Bytes) {
    && pack.sizes.Some? && |pack.sizes.value| == pack.streams
    && (pack.crcs.Some? ==> |pack.crcs.value| == pack.streams)
    && SectionStart(pack, envelope) <= U64_MAX
    && forall k :: 0 <= k < |pack.sizes.value| ==> StreamAcceptable(pack, envelope, archive, k)
  }

  lemma StreamRefused(pack: RawPackInfo, envelope: Envelope, archive: Bytes, k: nat)
    requires pack.sizes.Some? && k < |pack.sizes.value|
    ensures !StreamAcceptable(pack, envelope, archive, k) ==> !PackAcceptable(pack, envelope, archive)
  {
  }

  /** Accepts exactly the acceptable sections, given enough work. */
  method ValidatePackRanges(pack: RawPackInfo, envelope: Envelope, archive: Bytes, ranges: seq<Range>,
                            control: ParseControl)
      returns (r: Result<seq<PackStream>>, longer: seq<Range>)
    modifies control
    ensures r.Success? ==>
      PackStreamsOk(r.value, pack, envelope, archive) && longer == ranges + SectionRange(pack, envelope)
    ensures r.Failure? ==> longer == ranges && (PackCounted(pack) ==> !LengthFault(r.error))
    ensures r.Success? ==> PackAcceptable(pack, envelope, archive) && control.Charged(2 * pack.streams)
    ensures r.Failure? ==> (Interrupted(r) && control.stopped) || !PackAcceptable(pack, envelope, archive)
    ensures old(control.Ample(2 * pack.streams)) ==> !Interrupted(r)
  {
    hide SizesBefore, LengthFault, PackCounted;
    PackFaults(pack);
    longer := ranges;
    if pack.sizes.None? {
      return Failure(Format(MissingPackSizes)), longer;
    }
    var sizes := pack.sizes.value;
    var charged := control.Checkpoint(pack.streams);
    if charged.Failure? {
      return Failure(charged.error), longer;
    }
    if |sizes| != pack.streams {
      return Failure(Format(PackSizeCountInconsistent)), longer;
    }
    if pack.crcs.Some? && |pack.crcs.value| != pack.streams {
      return Failure(Format(PackCrcCountInconsistent)), longer;
    }
    var sectionStart := envelope.signatureOffset + FIXED_HEADER_SIZE + pack.position;
    if sectionStart > U64_MAX {
      return Failure(Format(PackRangeOverflows)), longer;
    }
    var offset := sectionStart;
    var streams: seq<PackStream> := [];
    SumStarts(sizes);
    for k := 0 to |sizes|
      invariant |streams| == k && offset == sectionStart + SizesBefore(sizes, k)
      invariant forall j :: 0 <= j < k ==>
        streams[j] == PackStreamOf(pack, envelope, j) && Placed(streams[j], envelope, archive)
      invariant forall j :: 0 <= j < k ==> StreamAcceptable(pack, envelope, archive, j)
      invariant control.Charged(pack.streams + k)
    {
      SumGrows(sizes, k);
      StreamRefused(pack, envelope, archive, k);
      charged := control.Checkpoint(1);
      if charged.Failure? {
        return Failure(charged.error), longer;
      }
      if sizes[k] == UNKNOWN_SIZE {
        return Failure(UnsupportedFeature(UnknownPackedStreamSize)), longer;
      }
      var end := offset + sizes[k];
      if end > U64_MAX {
        return Failure(Format(PackRangeOverflows)), longer;
      }
      if end > envelope.nextHeaderOffset {
        return Failure(Format(PackOverlapsNextHeader)), longer;
      }
      if end > |archive| {
        return Failure(Format(PackRangeOutsideArchive)), longer;
      }
      streams := streams + [PackStream(offset, Some(sizes[k]), CrcFor(pack.crcs, k))];
      offset := end;
    }
    if offset > sectionStart {
      longer := ranges + [Range(sectionStart, offset)];
    } else {
      assert ranges == ranges + [];
    }
    return Success(streams), longer;
  }

  lemma SumStarts(sizes: seq<u64>)
    ensures SizesBefore(sizes, 0) == 0
  {
  }

  lemma SumGrows(sizes: seq<u64>, k: nat)
    requires k < |sizes|
    ensures SizesBefore(sizes, k + 1) == SizesBefore(sizes, k) + sizes[k]
  {
  }

  lemma {:induction false} SumMonotone(sizes: seq<u64>, a: nat, b: nat)
    requires a <= b <= |sizes|
    ensures SizesBefore(sizes, a) <= SizesBefore(sizes, b)
    decreases b
  {
    if a < b {
      SumMonotone(sizes, a, b - 1);
    }
  }

  /** The packed streams of a section follow each other, after the fixed header and
      before the next header, inside the section's range. */
  lemma PackStreamsConsecutive(streams: seq<PackStream>, pack: RawPackInfo, envelope: Envelope, archive: Bytes, j: nat,
                               k: nat)
    requires PackStreamsOk(streams, pack, envelope, archive) && j < k < |streams|
    ensures streams[j].offset + streams[j].size.value <= streams[k].offset
    ensures k == j + 1 ==> streams[j].offset + streams[j].size.value == streams[k].offset
  {
    hide SectionStart;
    SumGrows(pack.sizes.value, j);
    SumMonotone(pack.sizes.value, j + 1, k);
  }

  lemma PackStreamInSection(streams: seq<PackStream>, pack: RawPackInfo, envelope: Envelope, archive: Bytes, k: nat,
                            at: nat)
    requires PackStreamsOk(streams, pack, envelope, archive) && k < |streams|
    requires streams[k].offset <= at < streams[k].offset + streams[k].size.value
    ensures envelope.signatureOffset + FIXED_HEADER_SIZE <= at < envelope.nextHeaderOffset
    ensures
      var section := SectionRange(pack, envelope);
      |section| == 1 && section[0].start <= at < section[0].end
  {
    SumGrows(pack.sizes.value, k);
    SumMonotone(pack.sizes.value, k + 1, |pack.sizes.value|);
  }

  // ----- Folders.

  function PackedBefore(folders: seq<RawFolder>, k: nat): nat
    requires k <= |folders|
  {
    if k == 0 then 0 else PackedBefore(folders, k - 1) + folders[k - 1].packedStreams
  }

  ghost predicate DraftsOk(drafts: seq<Folder>, unpack: RawUnpackInfo, tables: Tables, n: nat)
    requires n <= |unpack.folders|
  {
    && |drafts| == n
    && forall i :: 0 <= i < n ==>
         DraftOf(drafts[i], unpack.folders[i], tables, CrcFor(unpack.crcs, i), PackedBefore(unpack.folders, i))
  }

  lemma NoDrafts(unpack: RawUnpackInfo, tables: Tables)
    ensures DraftsOk([], unpack, tables, 0)
  {
  }

  lemma OneMoreDraft(drafts: seq<Folder>, unpack: RawUnpackInfo, tables: Tables, n: nat, draft: Folder)
    requires n < |unpack.folders| && DraftsOk(drafts, unpack, tables, n)
    requires DraftOf(draft, unpack.folders[n], tables, CrcFor(unpack.crcs, n), PackedBefore(unpack.folders, n))
    ensures DraftsOk(drafts + [draft], unpack, tables, n + 1)
  {
    hide DraftOf;
  }

  lemma CountedFolder(unpack: RawUnpackInfo, i: nat)
    requires UnpackCounted(unpack) && i < |unpack.folders|
    ensures CountsFit(unpack.folders[i]) && Sized(unpack.folders[i])
  {
    assert unpack.folders[i] in unpack.folders;
  }

  method DraftFolder(unpack: RawUnpackInfo, i: nat, dealt: nat, tables: Tables, limits: Limits, control: ParseControl)
      returns (r: Result<Folder>)
    requires i < |unpack.folders| && Stored(unpack.folders[i])
    modifies control
    ensures r.Success? ==> DraftOf(r.value, unpack.folders[i], tables, CrcFor(unpack.crcs, i), dealt)
    ensures r.Failure? && UnpackCounted(unpack) ==> !LengthFault(r.error)
    ensures r.Success? ==>
      FolderAcceptable(unpack.folders[i], tables, limits) && control.Charged(FolderWork(unpack.folders[i]))
    ensures r.Failure? ==> (Interrupted(r) && control.stopped) || !FolderAcceptable(unpack.folders[i], tables, limits)
    ensures old(control.Ample(FolderWork(unpack.folders[i]))) ==> !Interrupted(r)
  {
    hide LengthFault, DraftOf, CountsFit, Sized, UnpackCounted, Stored, FolderAcceptable, FolderWork;
    if UnpackCounted(unpack) {
      CountedFolder(unpack, i);
    }
    r := ValidateFolder(unpack.folders[i], CrcFor(unpack.crcs, i), dealt, tables, limits, control);
  }

  lemma NoDealt(folders: seq<RawFolder>)
    ensures PackedBefore(folders, 0) == 0
  {
  }

  lemma NextDealt(folders: seq<RawFolder>, i: nat)
    requires i < |folders|
    ensures PackedBefore(folders, i + 1) == PackedBefore(folders, i) + folders[i].packedStreams
  {
  }

  /** Every folder is acceptable, and together they use the packed streams up. */
  ghost predicate FoldersAcceptable(unpack: RawUnpackInfo, packCount: nat, tables: Tables, limits: Limits) {
    && (unpack.crcs.Some? ==> |unpack.crcs.value| == |unpack.folders|)
    && (forall i :: 0 <= i < |unpack.folders| ==> FolderAcceptable(unpack.folders[i], tables, limits))
    && PackedBefore(unpack.folders, |unpack.folders|) == packCount
  }

  function DraftWork(folders: seq<RawFolder>, k: nat): nat
    requires k <= |folders|
  {
    if k == 0 then 0 else DraftWork(folders, k - 1) + FolderWork(folders[k - 1])
  }

  lemma {:induction false} DraftWorkGrows(folders: seq<RawFolder>, a: nat, b: nat)
    requires a <= b <= |folders|
    ensures DraftWork(folders, a) <= DraftWork(folders, b) && DraftWork(folders, 0) == 0
    decreases b
  {
    hide FolderWork;
    if a < b {
      DraftWorkGrows(folders, a, b - 1);
    }
  }

  lemma NextDraftWork(folders: seq<RawFolder>, k: nat)
    requires k < |folders|
    ensures DraftWork(folders, k + 1) == DraftWork(folders, k) + FolderWork(folders[k])
    ensures DraftWork(folders, k + 1) <= DraftWork(folders, |folders|)
  {
    DraftWorkGrows(folders, k + 1, |folders|);
  }

  lemma {:induction false} PackedMonotone(folders: seq<RawFolder>, a: nat, b: nat)
    requires a <= b <= |folders|
    ensures PackedBefore(folders, a) <= PackedBefore(folders, b)
    decreases b
  {
    if a < b {
      PackedMonotone(folders, a, b - 1);
    }
  }

  /** The pack streams are dealt out in order, all of them. */
  method DraftFolders(unpack: RawUnpackInfo, packCount: nat, tables: Tables, limits: Limits, control: ParseControl)
      returns (r: Result<seq<Folder>>)
    requires |unpack.folders| <= U64_MAX && packCount <= U64_MAX && forall f :: f in unpack.folders ==> Stored(f)
    modifies control
    ensures r.Success? ==>
      DraftsOk(r.value, unpack, tables, |unpack.folders|) && PackedBefore(unpack.folders, |unpack.folders|) == packCount
    ensures r.Failure? && UnpackCounted(unpack) ==> !LengthFault(r.error)
    ensures r.Success? ==>
      && FoldersAcceptable(unpack, packCount, tables, limits)
      && control.Charged(|unpack.folders| + DraftWork(unpack.folders, |unpack.folders|))
    ensures r.Failure? ==> (Interrupted(r) && control.stopped) || !FoldersAcceptable(unpack, packCount, tables, limits)
    ensures old(control.Ample(|unpack.folders| + DraftWork(unpack.folders, |unpack.folders|))) ==> !Interrupted(r)
  {
    hide LengthFault, DraftOf, DraftsOk, UnpackCounted, Stored, PackedBefore, FolderAcceptable, FolderWork, DraftWork;
    DraftWorkGrows(unpack.folders, 0, |unpack.folders|);
    NoDealt(unpack.folders);
    NoDrafts(unpack, tables);
    DealFaults(unpack);
    if unpack.crcs.Some? && |unpack.crcs.value| != |unpack.folders| {
      return Failure(Format(FolderCrcCountInconsistent));
    }
    var dealt := 0;
    var drafts: seq<Folder> := [];
    var _ :- control.Checkpoint(|unpack.folders|);
    for i := 0 to |unpack.folders|
      invariant dealt == PackedBefore(unpack.folders, i) && DraftsOk(drafts, unpack, tables, i)
      invariant forall j :: 0 <= j < i ==> FolderAcceptable(unpack.folders[j], tables, limits)
      invariant control.Charged(|unpack.folders| + DraftWork(unpack.folders, i))
    {
      NextDraftWork(unpack.folders, i);
      PackedMonotone(unpack.folders, i + 1, |unpack.folders|);
      var raw := unpack.folders[i];
      assert raw in unpack.folders;
      NextDealt(unpack.folders, i);
      var draft :- DraftFolder(unpack, i, dealt, tables, limits, control);
      if dealt + raw.packedStreams > U64_MAX {
        return Failure(Format(AssignedPackedOverflows));
      }
      OneMoreDraft(drafts, unpack, tables, i, draft);
      dealt := dealt + raw.packedStreams;
      drafts := drafts + [draft];
    }
    if dealt != packCount {
      return Failure(Format(PackedTotalMismatch));
    }
    return Success(drafts);
  }

  lemma DealFaults(unpack: RawUnpackInfo)
    ensures forall e :: Interruption(e) ==> !LengthFault(e)
    ensures !LengthFault(Format(AssignedPackedOverflows)) && !LengthFault(Format(PackedTotalMismatch))
    ensures unpack.crcs.Some? && |unpack.crcs.value| != |unpack.folders| ==> !UnpackCounted(unpack)
  {
  }

  lemma SectionFaults()
    ensures !LengthFault(Format(SubstreamCountOverflows)) && !LengthFault(Format(PackRangesOverlap))
    ensures !LengthFault(Format(PackWithoutUnpack)) && !LengthFault(Format(SubstreamsWithoutStreams))
    ensures !LengthFault(LimitExceeded(Substreams))
  {
  }

  // ----- Substreams.

  /** Without counts every folder has one substream. */
  function CountsOf(substreams: Option<RawSubstreams>, folders: nat): seq<u64> {
    if substreams.None? || |substreams.value.counts| == 0 then Ones(folders) else substreams.value.counts
  }

  function ExplicitSizes(substreams: Option<RawSubstreams>): Option<seq<u64>> {
    if substreams.None? then None else substreams.value.explicitSizes
  }

  function ListedCrcs(substreams: Option<RawSubstreams>): Option<seq<Option<bv32>>> {
    if substreams.None? then None else substreams.value.crcs
  }

  function SizeCursor(substreams: Option<RawSubstreams>, counts: seq<u64>, k: nat): nat
    requires k <= |counts|
  {
    if ExplicitSizes(substreams).Some? then ExplicitBefore(counts, k) else 0
  }

  function CrcCursor(substreams: Option<RawSubstreams>, counts: seq<u64>, folderCrcs: Option<seq<Option<bv32>>>,
                     k: nat): nat
    requires k <= |counts|
  {
    if ListedCrcs(substreams).Some? then DigestsBefore(counts, folderCrcs, k) else 0
  }

  predicate DividedOk(f: Folder, substreams: Option<RawSubstreams>, counts: seq<u64>,
                      folderCrcs: Option<seq<Option<bv32>>>, i: nat)
    requires i < |counts|
  {
    SubstreamsOk(f.substreams, RootSize(f), f.crc, counts[i], ExplicitSizes(substreams),
                 SizeCursor(substreams, counts, i), ListedCrcs(substreams),
                 CrcCursor(substreams, counts, folderCrcs, i))
  }

  ghost predicate Attached(folders: seq<Folder>, drafts: seq<Folder>, substreams: Option<RawSubstreams>,
                           counts: seq<u64>, folderCrcs: Option<seq<Option<bv32>>>, n: nat) {
    && |folders| == n <= |drafts| && n <= |counts|
    && forall i :: 0 <= i < n ==>
         folders[i] == drafts[i].(substreams := folders[i].substreams)
           && DividedOk(folders[i], substreams, counts, folderCrcs, i)
  }

  lemma OneMoreAttached(folders: seq<Folder>, drafts: seq<Folder>, substreams: Option<RawSubstreams>, counts: seq<u64>,
                        folderCrcs: Option<seq<Option<bv32>>>, n: nat, subs: seq<Substream>)
    requires Attached(folders, drafts, substreams, counts, folderCrcs, n) && n < |drafts| && n < |counts|
    requires SubstreamsOk(subs, RootSize(drafts[n]), drafts[n].crc, counts[n], ExplicitSizes(substreams),
                          SizeCursor(substreams, counts, n), ListedCrcs(substreams),
                          CrcCursor(substreams, counts, folderCrcs, n))
    ensures Attached(folders + [drafts[n].(substreams := subs)], drafts, substreams, counts, folderCrcs, n + 1)
  {
    hide SubstreamsOk, ExplicitSizes, SizeCursor, ListedCrcs, CrcCursor;
  }

  predicate SubstreamsCounted(substreams: Option<RawSubstreams>, folders: nat, folderCrcs: Option<seq<Option<bv32>>>) {
    substreams.Some? ==> CountsAgree(substreams.value, folders, folderCrcs)
  }

  predicate CrcsListed(drafts: seq<Folder>, folderCrcs: Option<seq<Option<bv32>>>) {
    forall i :: 0 <= i < |drafts| ==> drafts[i].crc == CrcFor(folderCrcs, i)
  }

  /** Parsed counts never let a cursor run past its vector. */
  lemma CursorsInside(substreams: Option<RawSubstreams>, folders: nat, folderCrcs: Option<seq<Option<bv32>>>, i: nat)
    requires SubstreamsCounted(substreams, folders, folderCrcs) && i < folders
    ensures
      var counts := CountsOf(substreams, folders);
      && i < |counts|
      && FolderValidation.Enough(ExplicitSizes(substreams), SizeCursor(substreams, counts, i), ExplicitOf(counts[i]))
      && EnoughCrcs(ListedCrcs(substreams), CrcCursor(substreams, counts, folderCrcs, i),
                    DigestsOf(counts[i], CrcFor(folderCrcs, i)))
  {
    if substreams.Some? {
      NeedsWithinTotal(substreams.value.counts, folderCrcs, i + 1, folders);
    }
  }

  lemma CursorsStart(substreams: Option<RawSubstreams>, counts: seq<u64>, folderCrcs: Option<seq<Option<bv32>>>)
    ensures SizeCursor(substreams, counts, 0) == 0 == CrcCursor(substreams, counts, folderCrcs, 0)
      && TotalBefore(counts, 0) == 0
  {
  }

  lemma CursorsStep(substreams: Option<RawSubstreams>, counts: seq<u64>, folderCrcs: Option<seq<Option<bv32>>>, i: nat)
    requires i < |counts|
    ensures SizeCursor(substreams, counts, i + 1)
      == SizeCursor(substreams, counts, i) + if ExplicitSizes(substreams).Some? then ExplicitOf(counts[i]) else 0
    ensures CrcCursor(substreams, counts, folderCrcs, i + 1)
      == CrcCursor(substreams, counts, folderCrcs, i)
         + if ListedCrcs(substreams).Some? then DigestsOf(counts[i], CrcFor(folderCrcs, i)) else 0
    ensures TotalBefore(counts, i + 1) == TotalBefore(counts, i) + counts[i]
  {
  }

  /** Parsed counts leave no value unused. */
  lemma CursorsEnd(substreams: Option<RawSubstreams>, folders: nat, folderCrcs: Option<seq<Option<bv32>>>)
    requires SubstreamsCounted(substreams, folders, folderCrcs)
    ensures
      var counts := CountsOf(substreams, folders);
      && |counts| == folders
      && (ExplicitSizes(substreams).Some? ==>
          SizeCursor(substreams, counts, folders) == |ExplicitSizes(substreams).value|)
      && (ListedCrcs(substreams).Some? ==>
          CrcCursor(substreams, counts, folderCrcs, folders) == |ListedCrcs(substreams).value|)
  {
  }

  // ----- What the division into substreams asks for.

  predicate PartAcceptable(root: Option<u64>, substreams: Option<RawSubstreams>, counts: seq<u64>,
                           folderCrcs: Option<seq<Option<bv32>>>, i: nat)
    requires i < |counts|
  {
    SubstreamsAcceptable(root, CrcFor(folderCrcs, i), counts[i], ExplicitSizes(substreams),
                         SizeCursor(substreams, counts, i), ListedCrcs(substreams),
                         CrcCursor(substreams, counts, folderCrcs, i))
  }

  /** Both vectors are used to the last value. */
  predicate CursorsAtEnd(substreams: Option<RawSubstreams>, counts: seq<u64>, folderCrcs: Option<seq<Option<bv32>>>) {
    && (ExplicitSizes(substreams).Some? ==>
        SizeCursor(substreams, counts, |counts|) == |ExplicitSizes(substreams).value|)
    && (ListedCrcs(substreams).Some? ==>
        CrcCursor(substreams, counts, folderCrcs, |counts|) == |ListedCrcs(substreams).value|)
  }

  predicate DivisionAcceptable(roots: seq<Option<u64>>, substreams: Option<RawSubstreams>,
                               folderCrcs: Option<seq<Option<bv32>>>, limits: Limits) {
    var counts := CountsOf(substreams, |roots|);
    && |counts| == |roots|
    && TotalBefore(counts, |counts|) <= limits.maxSubstreams
    && (forall i :: 0 <= i < |counts| ==> PartAcceptable(roots[i], substreams, counts, folderCrcs, i))
    && CursorsAtEnd(substreams, counts, folderCrcs)
  }

  function RootsOf(drafts: seq<Folder>): (roots: seq<Option<u64>>)
    ensures |roots| == |drafts|
  {
    seq(|drafts|, i requires 0 <= i < |drafts| => RootSize(drafts[i]))
  }

  function DivisionWork(counts: seq<u64>, k: nat): nat
    requires k <= |counts|
  {
    if k == 0 then 0 else DivisionWork(counts, k - 1) + SubstreamWork(counts[k - 1])
  }

  lemma {:induction false} DivisionWorkGrows(counts: seq<u64>, a: nat, b: nat)
    requires a <= b <= |counts|
    ensures DivisionWork(counts, a) <= DivisionWork(counts, b) && DivisionWork(counts, 0) == 0
    decreases b
  {
    hide SubstreamWork;
    if a < b {
      DivisionWorkGrows(counts, a, b - 1);
    }
  }

  lemma NextDivisionWork(counts: seq<u64>, k: nat)
    requires k < |counts|
    ensures DivisionWork(counts, k + 1) == DivisionWork(counts, k) + SubstreamWork(counts[k])
    ensures DivisionWork(counts, k + 1) <= DivisionWork(counts, |counts|)
  {
    DivisionWorkGrows(counts, k + 1, |counts|);
  }

  datatype Division = Division(folders: seq<Folder>, total: nat)

  /** The substreams of folder i, and both cursors behind its values. */
  method DivideFolder(draft: Folder, substreams: Option<RawSubstreams>, counts: seq<u64>, i: nat, sizeCursor: nat,
                      crcCursor: nat, ghost folderCrcs: Option<seq<Option<bv32>>>, control: ParseControl)
      returns (r: Result<seq<Substream>>, sizeNext: nat, crcNext: nat)
    requires i < |counts| && counts == CountsOf(substreams, |counts|) && draft.crc == CrcFor(folderCrcs, i)
    requires sizeCursor == SizeCursor(substreams, counts, i)
      && crcCursor == CrcCursor(substreams, counts, folderCrcs, i)
    modifies control
    ensures r.Success? ==>
      && SubstreamsOk(r.value, RootSize(draft), draft.crc, counts[i], ExplicitSizes(substreams), sizeCursor,
                      ListedCrcs(substreams), crcCursor)
      && sizeNext == SizeCursor(substreams, counts, i + 1)
         && crcNext == CrcCursor(substreams, counts, folderCrcs, i + 1)
      && PartAcceptable(RootSize(draft), substreams, counts, folderCrcs, i) && control.Charged(SubstreamWork(counts[i]))
    ensures r.Failure? ==>
      (Interrupted(r) && control.stopped) || !PartAcceptable(RootSize(draft), substreams, counts, folderCrcs, i)
    ensures r.Failure? && SubstreamsCounted(substreams, |counts|, folderCrcs) ==> !LengthFault(r.error)
    ensures old(control.Ample(SubstreamWork(counts[i]))) ==> !Interrupted(r)
  {
    hide LengthFault, SubstreamFault, SubstreamsCounted, SubstreamsOk, RootSize, FolderValidation.Enough, EnoughCrcs,
         CountsOf;
    hide ExplicitSizes, ListedCrcs, SizeCursor, CrcCursor, SubstreamsAcceptable, SubstreamWork;
    CursorsStep(substreams, counts, folderCrcs, i);
    r, sizeNext, crcNext := BuildSubstreams(RootSize(draft), draft.crc, counts[i], ExplicitSizes(substreams),
                                            sizeCursor, ListedCrcs(substreams), crcCursor, control);
    if r.Failure? {
      if SubstreamsCounted(substreams, |counts|, folderCrcs) {
        CursorsInside(substreams, |counts|, folderCrcs, i);
        NoLengthFault(r.error, draft.crc, counts[i], ExplicitSizes(substreams), sizeCursor, ListedCrcs(substreams),
                      crcCursor);
      }
    }
  }

  /** The effect of the first i rounds. */
  ghost predicate Dividing(folders: seq<Folder>, drafts: seq<Folder>, substreams: Option<RawSubstreams>,
                           counts: seq<u64>, folderCrcs: Option<seq<Option<bv32>>>, i: nat) {
    && Attached(folders, drafts, substreams, counts, folderCrcs, i)
    && forall j :: 0 <= j < i ==> PartAcceptable(RootSize(drafts[j]), substreams, counts, folderCrcs, j)
  }

  lemma NextDivided(folders: seq<Folder>, drafts: seq<Folder>, substreams: Option<RawSubstreams>, counts: seq<u64>,
                    folderCrcs: Option<seq<Option<bv32>>>, i: nat, subs: seq<Substream>)
    requires Dividing(folders, drafts, substreams, counts, folderCrcs, i) && i < |drafts| && i < |counts|
    requires PartAcceptable(RootSize(drafts[i]), substreams, counts, folderCrcs, i)
    requires SubstreamsOk(subs, RootSize(drafts[i]), drafts[i].crc, counts[i], ExplicitSizes(substreams),
                          SizeCursor(substreams, counts, i), ListedCrcs(substreams),
                          CrcCursor(substreams, counts, folderCrcs, i))
    ensures Dividing(folders + [drafts[i].(substreams := subs)], drafts, substreams, counts, folderCrcs, i + 1)
  {
    hide PartAcceptable, Attached, RootSize, SubstreamsOk, ExplicitSizes, SizeCursor, ListedCrcs, CrcCursor;
    OneMoreAttached(folders, drafts, substreams, counts, folderCrcs, i, subs);
  }

  lemma NothingDivided(drafts: seq<Folder>, substreams: Option<RawSubstreams>, counts: seq<u64>,
                       folderCrcs: Option<seq<Option<bv32>>>)
    ensures Dividing([], drafts, substreams, counts, folderCrcs, 0)
  {
  }

  lemma DivisionDecided(folders: seq<Folder>, drafts: seq<Folder>, substreams: Option<RawSubstreams>, counts: seq<u64>,
                        folderCrcs: Option<seq<Option<bv32>>>, limits: Limits)
    requires counts == CountsOf(substreams, |drafts|) && |counts| == |drafts|
    requires Dividing(folders, drafts, substreams, counts, folderCrcs, |drafts|)
    ensures Attached(folders, drafts, substreams, counts, folderCrcs, |drafts|)
    ensures DivisionAcceptable(RootsOf(drafts), substreams, folderCrcs, limits)
      <==> TotalBefore(counts, |counts|) <= limits.maxSubstreams && CursorsAtEnd(substreams, counts, folderCrcs)
  {
    hide PartAcceptable, Attached, RootSize, CountsOf, CursorsAtEnd, TotalBefore;
  }

  lemma DivisionRefused(drafts: seq<Folder>, substreams: Option<RawSubstreams>, folderCrcs: Option<seq<Option<bv32>>>,
                        limits: Limits, i: nat)
    ensures
      var counts := CountsOf(substreams, |drafts|);
      && (|counts| != |drafts| ==> !DivisionAcceptable(RootsOf(drafts), substreams, folderCrcs, limits))
      && (i < |counts| == |drafts| && !PartAcceptable(RootSize(drafts[i]), substreams, counts, folderCrcs, i) ==>
            !DivisionAcceptable(RootsOf(drafts), substreams, folderCrcs, limits))
      && (i < |counts| == |drafts| && TotalBefore(counts, i + 1) > limits.maxSubstreams ==>
            !DivisionAcceptable(RootsOf(drafts), substreams, folderCrcs, limits))
  {
    hide PartAcceptable, RootSize, CursorsAtEnd, TotalBefore;
    var counts := CountsOf(substreams, |drafts|);
    if i < |counts| == |drafts| {
      NeedsWithinTotal(counts, None, i + 1, |counts|);
      assert RootsOf(drafts)[i] == RootSize(drafts[i]);
    }
  }

  /** Divides exactly what can be divided, given enough work. */
  method AttachSubstreams(drafts: seq<Folder>, substreams: Option<RawSubstreams>,
                          ghost folderCrcs: Option<seq<Option<bv32>>>, limits: Limits, control: ParseControl)
      returns (r: Result<Division>)
    requires CrcsListed(drafts, folderCrcs)
    modifies control
    ensures r.Success? ==>
      var counts := CountsOf(substreams, |drafts|);
      && |counts| == |drafts| && Attached(r.value.folders, drafts, substreams, counts, folderCrcs, |drafts|)
      && r.value.total == TotalBefore(counts, |drafts|) <= limits.maxSubstreams
    ensures r.Failure? && SubstreamsCounted(substreams, |drafts|, folderCrcs) ==> !LengthFault(r.error)
    ensures r.Success? ==>
      var counts := CountsOf(substreams, |drafts|);
      DivisionAcceptable(RootsOf(drafts), substreams, folderCrcs, limits)
        && control.Charged(DivisionWork(counts, |counts|))
    ensures r.Failure? ==>
      (Interrupted(r) && control.stopped) || !DivisionAcceptable(RootsOf(drafts), substreams, folderCrcs, limits)
    ensures
      var counts := CountsOf(substreams, |drafts|);
      old(control.Ample(DivisionWork(counts, |counts|))) ==> !Interrupted(r)
  {
    hide LengthFault, SubstreamsCounted, SubstreamsOk, Dividing, Attached, RootSize, RootsOf, CountsOf, ExplicitSizes,
         ListedCrcs;
    hide SizeCursor, CrcCursor, TotalBefore, DivisionAcceptable, PartAcceptable, DivisionWork, SubstreamWork;
    SectionFaults();
    var counts := CountsOf(substreams, |drafts|);
    if SubstreamsCounted(substreams, |drafts|, folderCrcs) {
      CursorsEnd(substreams, |drafts|, folderCrcs);
    }
    DivisionRefused(drafts, substreams, folderCrcs, limits, 0);
    if |counts| != |drafts| {
      return Failure(Format(SubstreamCountsInconsistent));
    }
    var sizeCursor: nat, crcCursor: nat, total: nat := 0, 0, 0;
    var folders: seq<Folder> := [];
    CursorsStart(substreams, counts, folderCrcs);
    NothingDivided(drafts, substreams, counts, folderCrcs);
    DivisionWorkGrows(counts, 0, |counts|);
    for i := 0 to |drafts|
      invariant Dividing(folders, drafts, substreams, counts, folderCrcs, i)
      invariant sizeCursor == SizeCursor(substreams, counts, i)
        && crcCursor == CrcCursor(substreams, counts, folderCrcs, i)
      invariant total == TotalBefore(counts, i) && (i > 0 ==> total <= limits.maxSubstreams)
      invariant control.Charged(DivisionWork(counts, i))
    {
      CursorsStep(substreams, counts, folderCrcs, i);
      NextDivisionWork(counts, i);
      DivisionRefused(drafts, substreams, folderCrcs, limits, i);
      if total + counts[i] > U64_MAX {
        return Failure(Format(SubstreamCountOverflows));
      }
      total := total + counts[i];
      if total > limits.maxSubstreams {
        return Failure(LimitExceeded(Substreams));
      }
      var subs;
      subs, sizeCursor, crcCursor :=
        DivideFolder(drafts[i], substreams, counts, i, sizeCursor, crcCursor, folderCrcs, control);
      if subs.Failure? {
        return Failure(subs.error);
      }
      NextDivided(folders, drafts, substreams, counts, folderCrcs, i, subs.value);
      folders := folders + [drafts[i].(substreams := subs.value)];
    }
    DivisionDecided(folders, drafts, substreams, counts, folderCrcs, limits);
    if ExplicitSizes(substreams).Some? && sizeCursor != |ExplicitSizes(substreams).value| {
      return Failure(Format(ExplicitSizesUnused));
    }
    if ListedCrcs(substreams).Some? && crcCursor != |ListedCrcs(substreams).value| {
      return Failure(Format(SubstreamCrcsUnused));
    }
    return Success(Division(folders, total));
  }
}
