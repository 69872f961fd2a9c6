/** Validated stream sections of a header: every folder is ready to decode, every
    packed stream feeds one input, and no byte is packed twice. */
module HeaderValidation {
  import opened Support
  import opened Model
  import opened Graph
  import opened Folders
  import opened SubstreamSyntax
  import opened StreamSyntax
  import opened FolderValidation
  import opened StreamValidation
  import opened Ranges
  import Execution

  function SectionRanges(raw: Option<RawStreamsInfo>, envelope: Envelope): (ranges: seq<Range>)
    ensures Proper(ranges)
  {
    if raw.None? || raw.value.pack.None? || raw.value.pack.value.sizes.None? then []
    else SectionRange(raw.value.pack.value, envelope)
  }

  /** The whole effect of validating a section. */
  ghost predicate StreamsOk(info: StreamsInfo, raw: RawStreamsInfo, envelope: Envelope, archive: Bytes,
                            tables: Tables) {
    if raw.pack.None? then raw.unpack.None? && raw.substreams.None? && info == StreamsInfo(0, [], [], 0)
    else
      && raw.unpack.Some?
      && PackStreamsOk(info.packStreams, raw.pack.value, envelope, archive)
      && info.packPosition == raw.pack.value.position
      && FoldersOk(info, raw.unpack.value, raw.substreams, tables)
  }

  ghost predicate FoldersOk(info: StreamsInfo, unpack: RawUnpackInfo, substreams: Option<RawSubstreams>,
                            tables: Tables) {
    var n := |unpack.folders|;
    var counts := CountsOf(substreams, n);
    && DraftsOk(info.folders, unpack, tables, n)
    && PackedBefore(unpack.folders, n) == |info.packStreams|
    && |counts| == n && info.substreamCount == TotalBefore(counts, n) <= U64_MAX
    && forall i :: 0 <= i < n ==> DividedOk(info.folders[i], substreams, counts, unpack.crcs, i)
  }

  lemma DraftWithSubstreams(f: Folder, subs: seq<Substream>, raw: RawFolder, tables: Tables, crc: Option<bv32>,
                            first: nat)
    requires DraftOf(f, raw, tables, crc, first)
    ensures DraftOf(f.(substreams := subs), raw, tables, crc, first)
  {
    hide BindsOk, RootOk, PackedOk, Numbered, ValidGraph;
  }

  lemma AttachedDrafts(folders: seq<Folder>, drafts: seq<Folder>, unpack: RawUnpackInfo,
                       substreams: Option<RawSubstreams>, tables: Tables)
    requires DraftsOk(drafts, unpack, tables, |unpack.folders|)
    requires Attached(folders, drafts, substreams, CountsOf(substreams, |drafts|), unpack.crcs, |drafts|)
    ensures DraftsOk(folders, unpack, tables, |unpack.folders|)
  {
    hide DraftOf, CountsOf, DividedOk;
    forall i | 0 <= i < |folders|
      ensures DraftOf(folders[i], unpack.folders[i], tables, CrcFor(unpack.crcs, i), PackedBefore(unpack.folders, i))
    {
      DraftWithSubstreams(drafts[i], folders[i].substreams, unpack.folders[i], tables, CrcFor(unpack.crcs, i),
                          PackedBefore(unpack.folders, i));
    }
  }

  lemma DraftCrcs(drafts: seq<Folder>, unpack: RawUnpackInfo, tables: Tables)
    requires DraftsOk(drafts, unpack, tables, |unpack.folders|)
    ensures CrcsListed(drafts, unpack.crcs)
  {
    hide ValidFolder, ValidGraph, CodersOf, UnpackSizes;
  }

  // ----- What validation of a section asks for.

  /** The declared size of a folder's one output that no binding consumes. */
  ghost function DeclaredRoot(raw: RawFolder): Option<u64> {
    if exists root: nat :: RootOk(raw.bindPairs, raw.outputStreams, root) && root < |raw.unpackSizes| then
      var root: nat :| RootOk(raw.bindPairs, raw.outputStreams, root) && root < |raw.unpackSizes|;
      OptionalSize(raw.unpackSizes[root])
    else None
  }

  ghost function DeclaredRoots(folders: seq<RawFolder>): (roots: seq<Option<u64>>)
    ensures |roots| == |folders|
  {
    seq(|folders|, i requires 0 <= i < |folders| => DeclaredRoot(folders[i]))
  }

  lemma OneRoot(raw: RawFolder, root: nat)
    requires RootOk(raw.bindPairs, raw.outputStreams, root) && root < |raw.unpackSizes|
    ensures DeclaredRoot(raw) == OptionalSize(raw.unpackSizes[root])
  {
    forall other: nat | RootOk(raw.bindPairs, raw.outputStreams, other) ensures other == root {
      RootsAgree(raw.bindPairs, raw.outputStreams, root, other);
    }
  }

  lemma RootsAgree(binds: seq<BindPair>, outputs: nat, a: nat, b: nat)
    requires RootOk(binds, outputs, a) && RootOk(binds, outputs, b)
    ensures a == b
  {
    hide OutputBound;
    assert OutputBound(binds, a) <==> a != b;
  }

  lemma DraftRoot(f: Folder, raw: RawFolder, tables: Tables, crc: Option<bv32>, first: nat)
    requires DraftOf(f, raw, tables, crc, first)
    ensures RootSize(f) == DeclaredRoot(raw)
  {
    hide DeclaredRoot, BindsOk, RootOk, PackedOk, ValidFolder, CodersOf;
    OneRoot(raw, f.rootOutput);
  }

  lemma DraftRoots(drafts: seq<Folder>, unpack: RawUnpackInfo, tables: Tables)
    requires DraftsOk(drafts, unpack, tables, |unpack.folders|)
    ensures RootsOf(drafts) == DeclaredRoots(unpack.folders)
  {
    hide DraftOf, DeclaredRoot, RootSize;
    forall i | 0 <= i < |drafts| ensures RootSize(drafts[i]) == DeclaredRoot(unpack.folders[i]) {
      DraftRoot(drafts[i], unpack.folders[i], tables, CrcFor(unpack.crcs, i), PackedBefore(unpack.folders, i));
    }
  }

  ghost predicate UnpackAcceptable(unpack: RawUnpackInfo, substreams: Option<RawSubstreams>, packCount: nat,
                                   tables: Tables, limits: Limits) {
    && FoldersAcceptable(unpack, packCount, tables, limits)
    && DivisionAcceptable(DeclaredRoots(unpack.folders), substreams, unpack.crcs, limits)
  }

  ghost predicate SectionAcceptable(raw: RawStreamsInfo, envelope: Envelope, archive: Bytes, tables: Tables,
                                    limits: Limits) {
    if raw.pack.None? then raw.unpack.None? && raw.substreams.None?
    else
      && raw.unpack.Some? && PackAcceptable(raw.pack.value, envelope, archive)
      && UnpackAcceptable(raw.unpack.value, raw.substreams, raw.pack.value.streams, tables, limits)
  }

  function UnpackWork(unpack: RawUnpackInfo, substreams: Option<RawSubstreams>): nat {
    var counts := CountsOf(substreams, |unpack.folders|);
    |unpack.folders| + DraftWork(unpack.folders, |unpack.folders|) + DivisionWork(counts, |counts|)
  }

  /** The checkpoints of a section. */
  function SectionWork(raw: RawStreamsInfo): nat {
    if raw.pack.None? || raw.unpack.None? then 0
    else 2 * raw.pack.value.streams + UnpackWork(raw.unpack.value, raw.substreams)
  }

  /** Accepts exactly the acceptable sections, given enough work. */
  method ValidateStreams(raw: RawStreamsInfo, envelope: Envelope, archive: Bytes, tables: Tables, limits: Limits,
                         control: ParseControl, ranges: seq<Range>)
      returns (r: Result<StreamsInfo>, longer: seq<Range>)
    requires StoredStreams(raw)
    modifies control
    ensures r.Success? ==>
      && StreamsOk(r.value, raw, envelope, archive, tables)
      && longer == ranges + SectionRanges(Some(raw), envelope)
    ensures r.Failure? && Counted(raw) ==> !LengthFault(r.error)
    ensures r.Success? ==>
      SectionAcceptable(raw, envelope, archive, tables, limits) && control.Charged(SectionWork(raw))
    ensures r.Failure? ==>
      (Interrupted(r) && control.stopped) || !SectionAcceptable(raw, envelope, archive, tables, limits)
    ensures old(control.Ample(SectionWork(raw))) ==> !Interrupted(r)
  {
    hide LengthFault, PackStreamsOk, DraftsOk, Attached, DividedOk, SectionRange, PackCounted;
    hide UnpackCounted, CountsOf, CountsAgree, PackAcceptable, UnpackAcceptable, UnpackWork;
    longer := ranges;
    SectionFaults();
    if raw.pack.Some? != raw.unpack.Some? {
      return Failure(Format(PackWithoutUnpack)), longer;
    }
    if raw.pack.None? {
      if raw.substreams.Some? {
        return Failure(Format(SubstreamsWithoutStreams)), longer;
      }
      assert ranges == ranges + [];
      return Success(StreamsInfo(0, [], [], 0)), longer;
    }
    var packStreams;
    packStreams, longer := ValidatePackRanges(raw.pack.value, envelope, archive, ranges, control);
    if packStreams.Failure? {
      return Failure(packStreams.error), longer;
    }
    PackSizesGiven(packStreams.value, raw.pack.value, envelope, archive);
    PackStreamsCounted(packStreams.value, raw.pack.value, envelope, archive);
    var folders := ValidateFolders(raw.unpack.value, raw.substreams, |packStreams.value|, tables, limits, control);
    if folders.Failure? {
      return Failure(folders.error), longer;
    }
    return Success(StreamsInfo(raw.pack.value.position, packStreams.value, folders.value.folders, folders.value.total)),
        longer;
  }

  lemma PackSizesGiven(streams: seq<PackStream>, pack: RawPackInfo, envelope: Envelope, archive: Bytes)
    requires PackStreamsOk(streams, pack, envelope, archive)
    ensures pack.sizes.Some?
  {
  }

  lemma PackStreamsCounted(streams: seq<PackStream>, pack: RawPackInfo, envelope: Envelope, archive: Bytes)
    requires PackStreamsOk(streams, pack, envelope, archive)
    ensures |streams| == pack.streams
  {
  }

  method ValidateFolders(unpack: RawUnpackInfo, substreams: Option<RawSubstreams>, packCount: nat, tables: Tables,
                         limits: Limits, control: ParseControl)
      returns (r: Result<Division>)
    requires |unpack.folders| <= U64_MAX && packCount <= U64_MAX && forall f :: f in unpack.folders ==> Stored(f)
    modifies control
    ensures r.Success? ==>
      var n := |unpack.folders|;
      var counts := CountsOf(substreams, n);
      && DraftsOk(r.value.folders, unpack, tables, n)
      && PackedBefore(unpack.folders, n) == packCount
      && |counts| == n && r.value.total == TotalBefore(counts, n) <= U64_MAX
      && forall i :: 0 <= i < n ==> DividedOk(r.value.folders[i], substreams, counts, unpack.crcs, i)
    ensures r.Failure? && UnpackCounted(unpack) && SubstreamsCounted(substreams, |unpack.folders|, unpack.crcs) ==>
      !LengthFault(r.error)
    ensures r.Success? ==>
      UnpackAcceptable(unpack, substreams, packCount, tables, limits) && control.Charged(UnpackWork(unpack, substreams))
    ensures r.Failure? ==>
      (Interrupted(r) && control.stopped) || !UnpackAcceptable(unpack, substreams, packCount, tables, limits)
    ensures old(control.Ample(UnpackWork(unpack, substreams))) ==> !Interrupted(r)
  {
    hide LengthFault, DraftOf, DividedOk, UnpackCounted, SubstreamsCounted, CountsOf, Stored;
    hide DraftsOk, RootsOf, DeclaredRoots, FoldersAcceptable, DivisionAcceptable, DraftWork, DivisionWork, Attached,
         PackedBefore;
    var drafts :- DraftFolders(unpack, packCount, tables, limits, control);
    DraftCount(drafts, unpack, tables);
    DraftRoots(drafts, unpack, tables);
    DraftCrcs(drafts, unpack, tables);
    r := AttachSubstreams(drafts, substreams, unpack.crcs, limits, control);
    if r.Success? {
      AttachedDrafts(r.value.folders, drafts, unpack, substreams, tables);
      AllDivided(r.value.folders, drafts, substreams, CountsOf(substreams, |drafts|), unpack.crcs);
    }
  }

  lemma DraftCount(drafts: seq<Folder>, unpack: RawUnpackInfo, tables: Tables)
    requires DraftsOk(drafts, unpack, tables, |unpack.folders|)
    ensures |drafts| == |unpack.folders|
  {
    hide DraftOf;
  }

  lemma AllDivided(folders: seq<Folder>, drafts: seq<Folder>, substreams: Option<RawSubstreams>, counts: seq<u64>,
                   folderCrcs: Option<seq<Option<bv32>>>)
    requires |counts| == |drafts| && Attached(folders, drafts, substreams, counts, folderCrcs, |drafts|)
    ensures |folders| == |drafts| && forall i :: 0 <= i < |folders| ==>
      DividedOk(folders[i], substreams, counts, folderCrcs, i)
  {
    hide DividedOk;
  }

  // ----- Every folder is ready to decode.

  lemma PackedGrows(folders: seq<RawFolder>, k: nat)
    requires k < |folders|
    ensures PackedBefore(folders, k + 1) == PackedBefore(folders, k) + folders[k].packedStreams
  {
  }

  lemma DraftStreams(f: Folder, raw: RawFolder, tables: Tables, crc: Option<bv32>, first: nat)
    requires DraftOf(f, raw, tables, crc, first)
    ensures ValidFolder(f) && f.firstPackStream == first && |f.packedInputs| == raw.packedStreams
  {
    hide ValidFolder, ValidGraph, CodersOf;
  }

  /** Folder i takes the packed streams from the sum before it on, and they all exist. */
  lemma FolderStreams(info: StreamsInfo, raw: RawStreamsInfo, envelope: Envelope, archive: Bytes, tables: Tables,
                      i: nat)
    requires StreamsOk(info, raw, envelope, archive, tables) && i < |info.folders|
    ensures raw.unpack.Some? && i < |raw.unpack.value.folders| && ValidFolder(info.folders[i])
    ensures info.folders[i].firstPackStream == PackedBefore(raw.unpack.value.folders, i)
    ensures info.folders[i].firstPackStream + |info.folders[i].packedInputs|
      == PackedBefore(raw.unpack.value.folders, i + 1)
    ensures PackedBefore(raw.unpack.value.folders, i + 1) <= |info.packStreams|
  {
    hide DraftOf, PackedBefore, DividedOk, PackStreamsOk, CountsOf;
    var folders := raw.unpack.value.folders;
    DraftStreams(info.folders[i], folders[i], tables, CrcFor(raw.unpack.value.crcs, i), PackedBefore(folders, i));
    PackedGrows(folders, i);
    PackedMonotone(folders, i + 1, |folders|);
  }

  /** Decoding a validated folder never finds a packed stream missing. */
  lemma FolderReady(info: StreamsInfo, raw: RawStreamsInfo, envelope: Envelope, archive: Bytes, tables: Tables, i: nat)
    requires StreamsOk(info, raw, envelope, archive, tables) && i < |info.folders|
    ensures ValidFolder(info.folders[i]) && Execution.AllAvailable(archive, info.packStreams, info.folders[i])
  {
    hide ValidFolder, FoldersOk, PackedBefore, PackStreamOf;
    FolderStreams(info, raw, envelope, archive, tables, i);
    var f := info.folders[i];
    forall j | f.firstPackStream <= j < f.firstPackStream + |f.packedInputs|
      ensures Execution.Available(archive, info.packStreams, j)
    {
      assert Placed(info.packStreams[j], envelope, archive);
    }
  }

  // ----- Every packed stream feeds one input of one folder.

  /** Packed stream j is loaded into input port `port` of folder i. */
  predicate Feeds(info: StreamsInfo, j: nat, i: nat, port: nat) {
    && i < |info.folders|
    && info.folders[i].firstPackStream <= j < info.folders[i].firstPackStream + |info.folders[i].packedInputs|
    && info.folders[i].packedInputs[j - info.folders[i].firstPackStream] == port
  }

  lemma {:induction false} FolderOfStream(folders: seq<RawFolder>, n: nat, j: nat) returns (i: nat)
    requires n <= |folders| && j < PackedBefore(folders, n)
    ensures i < n && PackedBefore(folders, i) <= j < PackedBefore(folders, i + 1)
    decreases n
  {
    if j < PackedBefore(folders, n - 1) {
      i := FolderOfStream(folders, n - 1, j);
    } else {
      i := n - 1;
    }
  }

  lemma StreamFeedsSome(info: StreamsInfo, raw: RawStreamsInfo, envelope: Envelope, archive: Bytes, tables: Tables,
                        j: nat)
      returns (i: nat, port: nat)
    requires StreamsOk(info, raw, envelope, archive, tables) && j < |info.packStreams|
    ensures Feeds(info, j, i, port)
  {
    hide PackStreamsOk, DraftOf, DividedOk, PackedBefore;
    var folders := raw.unpack.value.folders;
    i := FolderOfStream(folders, |folders|, j);
    FolderStreams(info, raw, envelope, archive, tables, i);
    port := info.folders[i].packedInputs[j - info.folders[i].firstPackStream];
  }

  lemma StreamFeedsOne(info: StreamsInfo, raw: RawStreamsInfo, envelope: Envelope, archive: Bytes, tables: Tables,
                       j: nat, i: nat, port: nat, i': nat, port': nat)
    requires StreamsOk(info, raw, envelope, archive, tables)
    requires Feeds(info, j, i, port) && Feeds(info, j, i', port')
    ensures i == i' && port == port' && j < |info.packStreams|
  {
    hide StreamsOk, ValidFolder, PackedBefore;
    FolderStreams(info, raw, envelope, archive, tables, i);
    FolderStreams(info, raw, envelope, archive, tables, i');
    var folders := raw.unpack.value.folders;
    if i < i' {
      PackedMonotone(folders, i + 1, i');
    } else if i' < i {
      PackedMonotone(folders, i' + 1, i);
    }
  }

  /** And no input is fed by two packed streams. */
  lemma InputFedOnce(info: StreamsInfo, raw: RawStreamsInfo, envelope: Envelope, archive: Bytes, tables: Tables, j: nat,
                     j': nat, i: nat, port: nat)
    requires StreamsOk(info, raw, envelope, archive, tables) && Feeds(info, j, i, port) && Feeds(info, j', i, port)
    ensures j == j'
  {
    hide StreamsOk, PackedBefore, BindsOk, RootOk, Numbered;
    FolderStreams(info, raw, envelope, archive, tables, i);
  }

  // ----- Substreams.

  function SubstreamsBefore(folders: seq<Folder>, k: nat): nat
    requires k <= |folders|
  {
    if k == 0 then 0 else SubstreamsBefore(folders, k - 1) + |folders[k - 1].substreams|
  }

  lemma {:induction false} SubstreamsAreCounted(folders: seq<Folder>, counts: seq<u64>, k: nat)
    requires k <= |folders| && k <= |counts| && forall i :: 0 <= i < k ==> |folders[i].substreams| == counts[i]
    ensures SubstreamsBefore(folders, k) == TotalBefore(counts, k)
    decreases k
  {
    if k > 0 {
      SubstreamsAreCounted(folders, counts, k - 1);
    }
  }

  /** The recorded count is the number of substreams. */
  lemma SubstreamCountExact(info: StreamsInfo, raw: RawStreamsInfo, envelope: Envelope, archive: Bytes, tables: Tables)
    requires StreamsOk(info, raw, envelope, archive, tables)
    ensures SubstreamsBefore(info.folders, |info.folders|) == info.substreamCount
  {
    hide PackStreamsOk, DraftOf, PackedBefore, CountsOf, SizesOk;
    if raw.pack.Some? {
      var counts := CountsOf(raw.substreams, |raw.unpack.value.folders|);
      forall i | 0 <= i < |info.folders| ensures |info.folders[i].substreams| == counts[i] {
        assert DividedOk(info.folders[i], raw.substreams, counts, raw.unpack.value.crcs, i);
      }
      SubstreamsAreCounted(info.folders, counts, |info.folders|);
    }
  }

  /** With all sizes known before the last, the substreams fill the folder exactly. */
  lemma SubstreamsFillFolder(info: StreamsInfo, raw: RawStreamsInfo, envelope: Envelope, archive: Bytes, tables: Tables,
                             i: nat)
    requires StreamsOk(info, raw, envelope, archive, tables) && i < |info.folders|
    requires
      var f := info.folders[i];
      |f.substreams| > 0 && RootSize(f).Some? && AllKnown(SizesOf(f)[..|f.substreams| - 1])
    ensures
      var f := info.folders[i];
      AllKnown(SizesOf(f)) && KnownTotal(SizesOf(f), |f.substreams|) == RootSize(f).value
  {
    hide PackStreamsOk, DraftOf, PackedBefore, CountsOf;
    var f := info.folders[i];
    var counts := CountsOf(raw.substreams, |raw.unpack.value.folders|);
    var explicit := ExplicitSizes(raw.substreams);
    var cursor := SizeCursor(raw.substreams, counts, i);
    assert DividedOk(f, raw.substreams, counts, raw.unpack.value.crcs, i);
    var sizes := seq(counts[i], k requires 0 <= k < counts[i] => f.substreams[k].size);
    assert sizes == SizesOf(f);
    NothingKnown(counts[i], explicit, cursor);
    SizesAddUp(sizes, RootSize(f).value, counts[i], explicit, cursor);
  }

  lemma NothingKnown(count: nat, explicit: Option<seq<u64>>, start: nat)
    requires FolderValidation.Enough(explicit, start, ExplicitOf(count))
    ensures explicit.None? && count > 1 ==> GivenSizes(count, explicit, start)[0].None?
  {
  }

  // ----- Both sections of a header.

  datatype HeaderStreams = HeaderStreams(additional: Option<StreamsInfo>, main: Option<StreamsInfo>)

  ghost predicate SectionOk(info: Option<StreamsInfo>, raw: Option<RawStreamsInfo>, envelope: Envelope, archive: Bytes,
                            tables: Tables) {
    info.Some? == raw.Some? && (info.Some? ==> StreamsOk(info.value, raw.value, envelope, archive, tables))
  }

  ghost predicate OptionAcceptable(raw: Option<RawStreamsInfo>, envelope: Envelope, archive: Bytes, tables: Tables,
                                   limits: Limits) {
    raw.Some? ==> SectionAcceptable(raw.value, envelope, archive, tables, limits)
  }

  function OptionWork(raw: Option<RawStreamsInfo>): nat {
    if raw.Some? then SectionWork(raw.value) else 0
  }

  method ValidateSection(raw: Option<RawStreamsInfo>, envelope: Envelope, archive: Bytes, tables: Tables,
                         limits: Limits, control: ParseControl, ranges: seq<Range>)
      returns (r: Result<Option<StreamsInfo>>, longer: seq<Range>)
    requires raw.Some? ==> StoredStreams(raw.value)
    modifies control
    ensures r.Success? ==>
      SectionOk(r.value, raw, envelope, archive, tables) && longer == ranges + SectionRanges(raw, envelope)
    ensures r.Failure? ==> raw.Some? && (Counted(raw.value) ==> !LengthFault(r.error))
    ensures r.Success? ==> OptionAcceptable(raw, envelope, archive, tables, limits) && control.Charged(OptionWork(raw))
    ensures r.Failure? ==>
      (Interrupted(r) && control.stopped) || !OptionAcceptable(raw, envelope, archive, tables, limits)
    ensures old(control.Ample(OptionWork(raw))) ==> !Interrupted(r)
  {
    hide StreamsOk, LengthFault, Counted, StoredStreams, SectionAcceptable, SectionWork;
    if raw.None? {
      assert ranges == ranges + [];
      return Success(None), ranges;
    }
    var streams;
    streams, longer := ValidateStreams(raw.value, envelope, archive, tables, limits, control, ranges);
    if streams.Failure? {
      return Failure(streams.error), longer;
    }
    return Success(Some(streams.value)), longer;
  }

  ghost predicate StreamsAcceptable(additional: Option<RawStreamsInfo>, main: Option<RawStreamsInfo>,
                                    envelope: Envelope, archive: Bytes, tables: Tables, limits: Limits) {
    && OptionAcceptable(additional, envelope, archive, tables, limits)
    && OptionAcceptable(main, envelope, archive, tables, limits)
    && Disjoint(SectionRanges(additional, envelope) + SectionRanges(main, envelope))
  }

  /** Accepts exactly the acceptable pairs of sections, given enough work. */
  method ValidateHeaderStreams(additional: Option<RawStreamsInfo>, main: Option<RawStreamsInfo>, envelope: Envelope,
                               archive: Bytes, tables: Tables, limits: Limits, control: ParseControl)
      returns (r: Result<HeaderStreams>)
    requires additional.Some? ==> StoredStreams(additional.value)
    requires main.Some? ==> StoredStreams(main.value)
    modifies control
    ensures r.Success? ==>
      && SectionOk(r.value.additional, additional, envelope, archive, tables)
      && SectionOk(r.value.main, main, envelope, archive, tables)
      && Disjoint(SectionRanges(additional, envelope) + SectionRanges(main, envelope))
    ensures r.Failure? && (additional.Some? ==> Counted(additional.value)) && (main.Some? ==> Counted(main.value)) ==>
      !LengthFault(r.error)
    ensures r.Success? ==>
      StreamsAcceptable(additional, main, envelope, archive, tables, limits)
      && control.Charged(OptionWork(additional) + OptionWork(main))
    ensures r.Failure? ==>
      (Interrupted(r) && control.stopped) || !StreamsAcceptable(additional, main, envelope, archive, tables, limits)
    ensures old(control.Ample(OptionWork(additional) + OptionWork(main))) ==> !Interrupted(r)
  {
    hide StreamsOk, Disjoint, StoredStreams, SectionOk, Counted, LengthFault, OptionAcceptable, OptionWork;
    SectionFaults();
    var first, ranges := ValidateSection(additional, envelope, archive, tables, limits, control, []);
    if first.Failure? {
      return Failure(first.error);
    }
    assert ranges == SectionRanges(additional, envelope);
    var second;
    second, ranges := ValidateSection(main, envelope, archive, tables, limits, control, ranges);
    if second.Failure? {
      return Failure(second.error);
    }
    var list := new Range[|ranges|](i requires 0 <= i < |ranges| => ranges[i]);
    assert list[..] == ranges;
    ProperSum(SectionRanges(additional, envelope), SectionRanges(main, envelope));
    var _ :- CheckNonOverlapping(list);
    return Success(HeaderStreams(first.value, second.value));
  }

  // ----- No byte is packed twice.

  predicate Holds(info: Option<StreamsInfo>, k: nat, at: nat) {
    && info.Some? && k < |info.value.packStreams|
    && info.value.packStreams[k].size.Some?
    && info.value.packStreams[k].offset <= at < info.value.packStreams[k].offset + info.value.packStreams[k].size.value
  }

  lemma HoldsInSection(info: Option<StreamsInfo>, raw: Option<RawStreamsInfo>, envelope: Envelope, archive: Bytes,
                       tables: Tables, k: nat, at: nat)
    requires SectionOk(info, raw, envelope, archive, tables) && Holds(info, k, at)
    ensures envelope.signatureOffset + FIXED_HEADER_SIZE <= at < envelope.nextHeaderOffset
    ensures
      var section := SectionRanges(raw, envelope);
      |section| == 1 && section[0].start <= at < section[0].end
  {
    hide FoldersOk, PackStreamOf, SectionRange, SizesBefore, SectionStart;
    PackStreamInSection(info.value.packStreams, raw.value.pack.value, envelope, archive, k, at);
  }

  lemma HeldOnceInSection(info: Option<StreamsInfo>, raw: Option<RawStreamsInfo>, envelope: Envelope, archive: Bytes,
                          tables: Tables, k: nat, k': nat, at: nat)
    requires SectionOk(info, raw, envelope, archive, tables) && Holds(info, k, at) && Holds(info, k', at)
    ensures k == k'
  {
    hide FoldersOk, PackStreamOf, SizesBefore;
    if k < k' {
      PackStreamsConsecutive(info.value.packStreams, raw.value.pack.value, envelope, archive, k, k');
    } else if k' < k {
      PackStreamsConsecutive(info.value.packStreams, raw.value.pack.value, envelope, archive, k', k);
    }
  }

  /** Within a section and across sections, a byte belongs to at most one packed stream. */
  lemma NoByteSharedAcross(a: Option<StreamsInfo>, rawA: Option<RawStreamsInfo>, m: Option<StreamsInfo>,
                           rawM: Option<RawStreamsInfo>, envelope: Envelope, archive: Bytes, tables: Tables, k: nat,
                           l: nat, at: nat)
    requires SectionOk(a, rawA, envelope, archive, tables) && SectionOk(m, rawM, envelope, archive, tables)
    requires Disjoint(SectionRanges(rawA, envelope) + SectionRanges(rawM, envelope))
    ensures !(Holds(a, k, at) && Holds(m, l, at))
  {
    hide SectionOk, Holds, SectionRanges;
    if Holds(a, k, at) && Holds(m, l, at) {
      HoldsInSection(a, rawA, envelope, archive, tables, k, at);
      HoldsInSection(m, rawM, envelope, archive, tables, l, at);
      OverlapFound(SectionRanges(rawA, envelope), SectionRanges(rawM, envelope), at);
    }
  }

  lemma OverlapFound(a: seq<Range>, b: seq<Range>, at: nat)
    requires |a| == |b| == 1 && a[0].start <= at < a[0].end && b[0].start <= at < b[0].end
    ensures !Disjoint(a + b)
  {
    assert Overlap((a + b)[0], (a + b)[1]);
  }
}
