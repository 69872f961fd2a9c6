/** Natural-order extraction: every entry once, every folder decoded at most once,
    reported to a sink. */
module Extraction {
  import opened Support
  import opened Folders
  import opened Evaluation
  import opened Execution
  import opened FileMapping
  import opened HeaderValidation
  import opened Slicing
  import opened Archives
  import opened RandomAccess
  import opened Sinks
  import Checksums

  // ----- What a run may deliver.

  /** Entries that are reported: those with a stream, and empty files that are no anti-items. */
  predicate Reported(e: FileEntry) {
    e.stream.Some? || (e.isEmptyFile && !e.isAnti)
  }

  function ReportedBefore(entries: seq<FileEntry>, n: nat): (xs: seq<nat>)
    requires n <= |entries|
  {
    if n == 0 then [] else ReportedBefore(entries, n - 1) + if Reported(entries[n - 1]) then [n - 1] else []
  }

  /** The delivered bytes are those of random access, within what room was left. */
  ghost predicate Justified(a: Archive, d: Delivery)
    requires ValidArchive(a)
  {
    exists remaining: nat ::
      remaining <= a.limits.maxTotalOutputBytes && ExtractedWithin(a, d.member, remaining) == Some(d.bytes)
  }

  ghost predicate AllJustified(a: Archive, ds: seq<Delivery>)
    requires ValidArchive(a)
  {
    forall d :: d in ds ==> Justified(a, d)
  }

  function MembersOf(ds: seq<Delivery>): (xs: seq<nat>) {
    seq(|ds|, k requires 0 <= k < |ds| => ds[k].member)
  }

  lemma OneMoreJustified(a: Archive, ds: seq<Delivery>, d: Delivery, remaining: nat)
    requires ValidArchive(a) && AllJustified(a, ds) && remaining <= a.limits.maxTotalOutputBytes
    requires ExtractedWithin(a, d.member, remaining) == Some(d.bytes)
    ensures AllJustified(a, ds + [d]) && MembersOf(ds + [d]) == MembersOf(ds) + [d.member]
  {
    hide ValidArchive, ExtractedWithin;
    assert Justified(a, d);
  }

  // ----- Where a run stands.

  /** The folder being delivered, its next substream and its bytes. */
  datatype Current = Current(index: nat, decoded: DecodedFolder, next: nat, offset: nat)

  /** `count` streamed entries are done; the current folder accounts for the last of them. */
  ghost predicate Standing(a: Archive, c: Option<Current>, count: nat)
    requires ValidArchive(a)
  {
    if c.None? then count == 0
    else
      var i := c.value.index;
      && HasFolder(a, i) && 0 < c.value.next <= |FolderAt(a, i).substreams|
      && SubstreamsBefore(a.streams.value.folders, i) + c.value.next == count
      && Ready(a, c.value)
  }

  /** The folder was decoded, its checksum fits, and the offset is that of the next member. */
  ghost predicate Ready(a: Archive, c: Current)
    requires ValidArchive(a) && HasFolder(a, c.index) && c.next <= |FolderAt(a, c.index).substreams|
  {
    var f := FolderAt(a, c.index);
    && CrcFits(c.decoded.bytes, f.crc)
    && c.decoded.encrypted == Encrypted(f)
    && c.offset == Offset(SizesOf(f), c.next, |c.decoded.bytes|)
    && exists remaining: nat ::
      remaining <= a.limits.maxTotalOutputBytes && WholeFolder(a, c.index, remaining) == Some(c.decoded.bytes)
  }

  predicate OrderFault(e: Error) {
    || e == Format(NoMainStreams) || e == Format(FolderIndexOutside) || e == Format(SubstreamsUnmapped)
    || e == Format(MappingOutOfOrder) || e == Format(FolderUnavailable) || e == Format(SubstreamIndexOutside)
  }

  /** The next streamed entry continues the current folder, or starts a later one
      once the current one is used up. */
  lemma NextPlace(a: Archive, c: Option<Current>, x: nat)
    requires ValidArchive(a) && x < |a.entries| && a.entries[x].stream.Some?
    requires Standing(a, c, StreamIndex(Streamless(a.entries), x))
    ensures
      var m := a.entries[x].stream.value;
      && HasFolder(a, m.folder) && m.substream < |FolderAt(a, m.folder).substreams|
      && (if c.Some? && c.value.index == m.folder then m.substream == c.value.next
          else m.substream == 0 && (c.Some? ==>
            c.value.index < m.folder && c.value.next == |FolderAt(a, c.value.index).substreams|))
  {
    hide ValidArchive, Ready, StreamIndex, SubstreamsBefore;
    EntryPlace(a, x);
    var m := a.entries[x].stream.value;
    var folders := a.streams.value.folders;
    RowEnds(folders, m.folder);
    if c.Some? {
      RowEnds(folders, c.value.index);
      if m.folder < c.value.index {
        SubstreamsMonotone(folders, m.folder + 1, c.value.index);
      } else if c.value.index < m.folder {
        SubstreamsMonotone(folders, c.value.index + 1, m.folder);
      }
    } else {
      NothingBefore(folders);
      SubstreamsMonotone(folders, 0, m.folder);
    }
  }

  lemma NothingBefore(folders: seq<Folder>)
    ensures SubstreamsBefore(folders, 0) == 0
  {
  }

  // ----- Which folders are decoded.

  function FoldersOf(a: Archive): seq<Folder> {
    if a.streams.None? then [] else a.streams.value.folders
  }

  /** The first n folders that have substreams. */
  function Divided(folders: seq<Folder>, n: nat): seq<nat>
    requires n <= |folders|
  {
    if n == 0 then [] else Divided(folders, n - 1) + if |folders[n - 1].substreams| > 0 then [n - 1] else []
  }

  /** The folders decoded so far are those with substreams up to the current one. */
  ghost predicate DecodedUpTo(a: Archive, decoded: seq<nat>, c: Option<Current>) {
    if c.None? then decoded == []
    else c.value.index < |FoldersOf(a)| && decoded == Divided(FoldersOf(a), c.value.index + 1)
  }

  /** No folder is decoded twice, and none out of order. */
  predicate Increasing(decoded: seq<nat>) {
    forall j, k :: 0 <= j < k < |decoded| ==> decoded[j] < decoded[k]
  }

  ghost predicate DecodesOk(a: Archive, decoded: seq<nat>) {
    Increasing(decoded) && decoded <= Divided(FoldersOf(a), |FoldersOf(a)|)
  }

  lemma {:induction false} DividedIncreasing(folders: seq<Folder>, n: nat)
    requires n <= |folders|
    ensures Increasing(Divided(folders, n)) && forall k :: 0 <= k < |Divided(folders, n)| ==> Divided(folders, n)[k] < n
    decreases n
  {
    if n > 0 {
      DividedIncreasing(folders, n - 1);
    }
  }

  lemma {:induction false} DividedPrefix(folders: seq<Folder>, m: nat, n: nat)
    requires m <= n <= |folders|
    ensures Divided(folders, m) <= Divided(folders, n)
    decreases n
  {
    if m < n {
      DividedPrefix(folders, m, n - 1);
    }
  }

  /** Between folders that account for the same substreams there is nothing to decode. */
  lemma {:induction false} NothingDivided(folders: seq<Folder>, m: nat, n: nat)
    requires m <= n <= |folders| && SubstreamsBefore(folders, m) == SubstreamsBefore(folders, n)
    ensures Divided(folders, m) == Divided(folders, n)
    decreases n
  {
    if m < n {
      SubstreamsMonotone(folders, m, n - 1);
      NothingDivided(folders, m, n - 1);
    }
  }

  lemma DecodedSoFar(a: Archive, decoded: seq<nat>, c: Option<Current>)
    requires DecodedUpTo(a, decoded, c)
    ensures DecodesOk(a, decoded)
  {
    var folders := FoldersOf(a);
    var n := if c.None? then 0 else c.value.index + 1;
    DividedIncreasing(folders, n);
    DividedPrefix(folders, n, |folders|);
  }

  /** The folder entered next is the next one with substreams. */
  lemma DecodesNext(a: Archive, decoded: seq<nat>, c: Option<Current>, x: nat, d: Current)
    requires ValidArchive(a) && x < |a.entries| && a.entries[x].stream.Some?
    requires Standing(a, c, StreamIndex(Streamless(a.entries), x)) && DecodedUpTo(a, decoded, c)
    requires d.index == a.entries[x].stream.value.folder && (c.Some? ==> c.value.index != d.index)
    ensures DecodedUpTo(a, decoded + [d.index], Some(d))
  {
    hide ValidArchive, Ready, StreamIndex;
    EntryPlace(a, x);
    NextPlace(a, c, x);
    var folders := FoldersOf(a);
    NothingBefore(folders);
    NothingDivided(folders, if c.None? then 0 else c.value.index + 1, d.index);
  }

  // ----- What has been delivered.

  function TotalBytes(ds: seq<Delivery>): nat {
    if |ds| == 0 then 0 else TotalBytes(ds[..|ds| - 1]) + |ds[|ds| - 1].bytes|
  }

  lemma OneMoreTotal(ds: seq<Delivery>, d: Delivery)
    ensures TotalBytes(ds + [d]) == TotalBytes(ds) + |d.bytes|
  {
    assert (ds + [d])[..|ds|] == ds;
  }

  /** The deliveries so far are all that is due from the first x entries. */
  ghost predicate Delivered(a: Archive, t: Trace, x: nat, delivered: nat)
    requires ValidArchive(a)
  {
    && x <= |a.entries| && t.open.None? && t.next <= x
    && AllJustified(a, t.finished) && MembersOf(t.finished) == ReportedBefore(a.entries, x)
    && TotalBytes(t.finished) == delivered
  }

  lemma DeliveredOne(a: Archive, t: Trace, x: nat, delivered: nat, bytes: Bytes)
    requires ValidArchive(a) && Delivered(a, t, x, delivered) && x < |a.entries| && Reported(a.entries[x])
    requires AllJustified(a, t.finished + [Delivery(x, bytes)])
    ensures Delivered(a, Trace(x + 1, None, t.finished + [Delivery(x, bytes)]), x + 1, delivered + |bytes|)
  {
    hide ValidArchive, Justified;
    OneMoreTotal(t.finished, Delivery(x, bytes));
    assert MembersOf(t.finished + [Delivery(x, bytes)]) == MembersOf(t.finished) + [x];
  }

  lemma DeliveredNone(a: Archive, t: Trace, x: nat, delivered: nat)
    requires ValidArchive(a) && Delivered(a, t, x, delivered) && x < |a.entries| && !Reported(a.entries[x])
    ensures Delivered(a, t, x + 1, delivered)
  {
    hide ValidArchive, Justified;
  }

  lemma DeliveredFacts(a: Archive, t: Trace, x: nat, delivered: nat)
    requires ValidArchive(a) && Delivered(a, t, x, delivered)
    ensures t.open.None? && t.next <= x <= |a.entries| && AllJustified(a, t.finished)
  {
    hide ValidArchive;
  }

  /** An open entry is one that is due, announced with its size, and what was written of
      it is the beginning of what random access cuts out. */
  ghost predicate OpenOk(a: Archive, o: Opened)
    requires ValidArchive(a)
  {
    && o.member < |a.entries| && Reported(a.entries[o.member])
    && exists remaining: nat :: remaining <= a.limits.maxTotalOutputBytes && BeginsCut(a, o, remaining)
  }

  ghost predicate BeginsCut(a: Archive, o: Opened, remaining: nat)
    requires ValidArchive(a)
  {
    var c := OpeningWithin(a, o.member, remaining);
    && c.Some? && o.size == c.value.end - c.value.start
    && o.written <= c.value.whole[c.value.start..c.value.end]
  }

  /** What holds of every run, however it ends: the finished entries are the first of
      those due and justified, and at most one more is open. */
  ghost predicate RunOk(a: Archive, t: Trace)
    requires ValidArchive(a)
  {
    && AllJustified(a, t.finished)
    && MembersOf(t.finished) <= ReportedBefore(a.entries, |a.entries|)
    && (t.open.Some? ==> OpenOk(a, t.open.value))
  }

  lemma {:induction false} ReportedPrefix(entries: seq<FileEntry>, m: nat, n: nat)
    requires m <= n <= |entries|
    ensures ReportedBefore(entries, m) <= ReportedBefore(entries, n)
    decreases n
  {
    if m < n {
      ReportedPrefix(entries, m, n - 1);
    }
  }

  lemma DeliveredRunOk(a: Archive, t: Trace, x: nat, delivered: nat)
    requires ValidArchive(a) && Delivered(a, t, x, delivered)
    ensures RunOk(a, t)
  {
    hide ValidArchive, Justified;
    ReportedPrefix(a.entries, x, |a.entries|);
  }

  lemma AttemptedRunOk(a: Archive, before: Trace, after: Option<Trace>, x: nat, delivered: nat, bytes: Bytes,
                       crc: Option<bv32>, remaining: nat)
    requires ValidArchive(a) && Delivered(a, before, x, delivered) && x < |a.entries| && Reported(a.entries[x])
    requires remaining <= a.limits.maxTotalOutputBytes && OpeningWithin(a, x, remaining).Some?
    requires
      var c := OpeningWithin(a, x, remaining).value;
      bytes == c.whole[c.start..c.end]
    requires CrcFits(bytes, crc) ==> ExtractedWithin(a, x, remaining) == Some(bytes)
    requires Attempted(before, after, x, bytes, crc)
    ensures after.Some? && RunOk(a, after.value)
  {
    hide ValidArchive, OpeningWithin, ExtractedWithin, Justified, CrcFits;
    if Begun(before, after.value, x, bytes) {
      assert BeginsCut(a, after.value.open.value, remaining);
      ReportedPrefix(a.entries, x, |a.entries|);
    } else {
      OneMoreJustified(a, before.finished, Delivery(x, bytes), remaining);
      DeliveredOne(a, before, x, delivered, bytes);
      DeliveredRunOk(a, after.value, x + 1, delivered + |bytes|);
    }
  }

  // ----- The room that is used, and whether a run can go through.

  /** Everything the sink has been given. */
  function Spent(t: Trace): nat {
    TotalBytes(t.finished) + if t.open.Some? then |t.open.value.written| else 0
  }

  /** Member j can be cut out of the decoded folder, and its checksum fits. */
  predicate MemberFits(f: Folder, j: nat, whole: Bytes, maxEntry: nat)
    requires j < |f.substreams|
  {
    var c := CutOf(f, j, whole, maxEntry);
    c.Some? && CrcFits(whole[c.value.start..c.value.end], f.substreams[j].crc)
  }

  predicate AllFit(f: Folder, whole: Bytes, maxEntry: nat) {
    CrcFits(whole, f.crc) && forall j :: 0 <= j < |f.substreams| ==> MemberFits(f, j, whole, maxEntry)
  }

  /** The bytes used once folder i, too, is decoded into the room that is left; none if it
      cannot be decoded there, or does not fit its sizes or checksums. */
  ghost function UsedBy(a: Archive, i: nat, before: nat): (used: Option<nat>)
    requires ValidArchive(a) && i < |FoldersOf(a)| && before <= a.limits.maxTotalOutputBytes
    ensures used.Some? ==> used.value <= a.limits.maxTotalOutputBytes
  {
    hide ValidArchive, WholeFolder, AllFit;
    if |FoldersOf(a)[i].substreams| == 0 then Some(before)
    else
      var whole := WholeFolder(a, i, a.limits.maxTotalOutputBytes - before);
      if whole.None? || !AllFit(FoldersOf(a)[i], whole.value, MaxEntry(a)) then None
      else
        WholeWithin(a, i, a.limits.maxTotalOutputBytes - before);
        Some(before + |whole.value|)
  }

  /** The bytes the first n folders take up, one after the other. */
  ghost function Used(a: Archive, n: nat): (used: Option<nat>)
    requires ValidArchive(a) && n <= |FoldersOf(a)|
    ensures used.Some? ==> used.value <= a.limits.maxTotalOutputBytes
  {
    if n == 0 then Some(0)
    else
      var before := Used(a, n - 1);
      if before.None? then None else UsedBy(a, n - 1, before.value)
  }

  lemma {:induction false} UsedFails(a: Archive, m: nat, n: nat)
    requires ValidArchive(a) && m <= n <= |FoldersOf(a)| && Used(a, m).None?
    ensures Used(a, n).None?
    decreases n
  {
    hide ValidArchive, UsedBy;
    if m < n {
      UsedFails(a, m, n - 1);
    }
  }

  /** Between folders that account for the same substreams nothing is used. */
  lemma {:induction false} NothingUsed(a: Archive, m: nat, n: nat)
    requires ValidArchive(a) && m <= n <= |FoldersOf(a)|
    requires SubstreamsBefore(FoldersOf(a), m) == SubstreamsBefore(FoldersOf(a), n)
    ensures Used(a, m) == Used(a, n)
    decreases n
  {
    hide ValidArchive, WholeFolder, AllFit;
    if m < n {
      SubstreamsMonotone(FoldersOf(a), m, n - 1);
      NothingUsed(a, m, n - 1);
    }
  }

  /** The folder stands in the room the earlier ones left, and its members so far fit. */
  ghost predicate InRoom(a: Archive, p: Progress)
    requires ValidArchive(a)
  {
    if p.current.None? then p.totalOutput == 0
    else
      var c := p.current.value;
      && c.index < |FoldersOf(a)| && c.next <= |FoldersOf(a)[c.index].substreams|
      && Used(a, c.index).Some?
      && WholeFolder(a, c.index, a.limits.maxTotalOutputBytes - Used(a, c.index).value) == Some(c.decoded.bytes)
      && p.totalOutput == Used(a, c.index).value + |c.decoded.bytes|
      && CrcFits(c.decoded.bytes, FoldersOf(a)[c.index].crc)
      && forall j :: 0 <= j < c.next ==> MemberFits(FoldersOf(a)[c.index], j, c.decoded.bytes, MaxEntry(a))
  }

  lemma FolderUsed(a: Archive, p: Progress)
    requires ValidArchive(a) && InRoom(a, p) && p.current.Some?
    requires 0 < p.current.value.next == |FoldersOf(a)[p.current.value.index].substreams|
    ensures Used(a, p.current.value.index + 1) == Some(p.totalOutput)
  {
    hide ValidArchive, WholeFolder, MemberFits, CrcFits;
  }

  /** What is used when the next streamed entry starts a folder. */
  lemma UsedSoFar(a: Archive, p: Progress, x: nat)
    requires ValidArchive(a) && InRoom(a, p) && x < |a.entries| && a.entries[x].stream.Some?
    requires Standing(a, p.current, StreamIndex(Streamless(a.entries), x))
    requires p.current.Some? ==> p.current.value.index != a.entries[x].stream.value.folder
    ensures a.entries[x].stream.value.folder < |FoldersOf(a)|
    ensures Used(a, a.entries[x].stream.value.folder) == Some(p.totalOutput)
  {
    hide ValidArchive, Ready, StreamIndex, WholeFolder, MemberFits, CrcFits, InRoom, Used;
    EntryPlace(a, x);
    NextPlace(a, p.current, x);
    NothingBefore(FoldersOf(a));
    if p.current.Some? {
      FolderUsed(a, p);
      NothingUsed(a, p.current.value.index + 1, a.entries[x].stream.value.folder);
    } else {
      NothingUsed(a, 0, a.entries[x].stream.value.folder);
      UsedAtStart(a, p);
    }
  }

  lemma UsedAtStart(a: Archive, p: Progress)
    requires ValidArchive(a) && InRoom(a, p) && p.current.None?
    ensures Used(a, 0) == Some(p.totalOutput)
  {
    hide ValidArchive;
  }

  /** A run goes through if no folder is in its way. */
  ghost predicate Passable(a: Archive)
    requires ValidArchive(a)
  {
    Used(a, |FoldersOf(a)|).Some?
  }

  lemma BlockedBy(a: Archive, i: nat, before: nat)
    requires ValidArchive(a) && i < |FoldersOf(a)| && before <= a.limits.maxTotalOutputBytes
    requires |FoldersOf(a)[i].substreams| > 0
    requires
      var whole := WholeFolder(a, i, a.limits.maxTotalOutputBytes - before);
      whole.Some? ==> !AllFit(FoldersOf(a)[i], whole.value, MaxEntry(a))
    ensures UsedBy(a, i, before).None?
  {
    hide ValidArchive, WholeFolder, AllFit;
  }

  lemma FolderBlocks(a: Archive, i: nat)
    requires ValidArchive(a) && i < |FoldersOf(a)| && |FoldersOf(a)[i].substreams| > 0 && Used(a, i).Some?
    requires
      var whole := WholeFolder(a, i, a.limits.maxTotalOutputBytes - Used(a, i).value);
      whole.Some? ==> !AllFit(FoldersOf(a)[i], whole.value, MaxEntry(a))
    ensures !Passable(a)
  {
    hide ValidArchive, WholeFolder, AllFit;
    BlockedBy(a, i, Used(a, i).value);
    UsedFails(a, i + 1, |FoldersOf(a)|);
  }

  lemma EntersRoom(a: Archive, i: nat, before: nat, c: Current)
    requires ValidArchive(a) && i < |FoldersOf(a)| && Used(a, i) == Some(before)
    requires WholeFolder(a, i, a.limits.maxTotalOutputBytes - before) == Some(c.decoded.bytes)
    requires CrcFits(c.decoded.bytes, FoldersOf(a)[i].crc) && c.index == i && c.next == 0
    ensures InRoom(a, Progress(Some(c), before + |c.decoded.bytes|))
  {
    hide ValidArchive, WholeFolder, CrcFits, Used;
  }

  lemma MemberPassed(a: Archive, c: Current, d: Current, total: nat)
    requires ValidArchive(a) && InRoom(a, Progress(Some(c), total))
    requires d.index == c.index && d.decoded == c.decoded && d.next == c.next + 1
    requires c.next < |FoldersOf(a)[c.index].substreams|
      && MemberFits(FoldersOf(a)[c.index], c.next, c.decoded.bytes, MaxEntry(a))
    ensures InRoom(a, Progress(Some(d), total))
  {
    hide ValidArchive, WholeFolder, CrcFits, Used, MemberFits;
  }

  lemma MemberBlocks(a: Archive, c: Current, total: nat)
    requires ValidArchive(a) && InRoom(a, Progress(Some(c), total))
    requires c.next < |FoldersOf(a)[c.index].substreams|
      && !MemberFits(FoldersOf(a)[c.index], c.next, c.decoded.bytes, MaxEntry(a))
    ensures !Passable(a)
  {
    hide ValidArchive, WholeFolder, CrcFits, Used, MemberFits;
    FolderBlocks(a, c.index);
  }

  /** All entries are behind the run: every folder was passed. */
  lemma AllPassed(a: Archive, p: Progress)
    requires ValidArchive(a) && Standing(a, p.current, StreamIndex(Streamless(a.entries), |a.entries|))
      && InRoom(a, p)
    requires |a.entries| > 0
    ensures Used(a, |FoldersOf(a)|) == Some(p.totalOutput)
  {
    hide Ready, FoldersReady, StreamIndex, Mappings, InRoom, Used;
    var folders := FoldersOf(a);
    assert |AllStreams(a.streams)| == SubstreamsBefore(folders, |folders|);
    NothingBefore(folders);
    if p.current.Some? {
      StandingAtEnd(a, p.current);
      RowEnds(folders, p.current.value.index);
      FolderUsed(a, p);
    } else {
      UsedAtStart(a, p);
    }
    NothingUsed(a, if p.current.None? then 0 else p.current.value.index + 1, |folders|);
  }

  /** What has been delivered leaves room for the rest of the current folder. */
  predicate Bounded(p: Progress, delivered: nat) {
    if p.current.None? then delivered <= p.totalOutput
    else
      var c := p.current.value;
      c.offset <= |c.decoded.bytes| && delivered + |c.decoded.bytes| - c.offset <= p.totalOutput
  }

  lemma AttemptedSpent(before: Trace, after: Option<Trace>, x: nat, bytes: Bytes, crc: Option<bv32>, maximum: nat)
    requires before.open.None? && TotalBytes(before.finished) + |bytes| <= maximum
    requires Attempted(before, after, x, bytes, crc)
    ensures after.Some? && Spent(after.value) <= maximum
  {
    hide CrcFits;
    OneMoreTotal(before.finished, Delivery(x, bytes));
  }

  lemma DeliveredSpent(a: Archive, t: Trace, x: nat, delivered: nat)
    requires ValidArchive(a) && Delivered(a, t, x, delivered)
    ensures Spent(t) == delivered == TotalBytes(t.finished)
  {
    hide ValidArchive, Justified;
  }

  // ----- One entry.

  /** Decodes a folder into the room that is left, and checks its CRC. */
  method EnterFolder(a: Archive, i: nat, totalOutput: nat, control: ParseControl, ghost log: DecodeLog)
      returns (r: Result<DecodedFolder>)
    requires ValidArchive(a) && HasFolder(a, i) && totalOutput <= a.limits.maxTotalOutputBytes
    modifies control, log
    ensures log.decoded == old(log.decoded) || log.decoded == old(log.decoded) + [i]
    ensures r.Success? ==> log.decoded == old(log.decoded) + [i]
    ensures r.Success? ==>
      && WholeFolder(a, i, a.limits.maxTotalOutputBytes - totalOutput) == Some(r.value.bytes)
      && CrcFits(r.value.bytes, FolderAt(a, i).crc) && r.value.encrypted == Encrypted(FolderAt(a, i))
      && totalOutput + |r.value.bytes| <= a.limits.maxTotalOutputBytes
    ensures r.Failure? ==> !OrderFault(r.error)
    ensures r.Failure? ==>
      || (Interrupted(r) && control.stopped)
      || var whole := WholeFolder(a, i, a.limits.maxTotalOutputBytes - totalOutput);
         whole.Some? ==> !CrcFits(whole.value, FolderAt(a, i).crc)
  {
    hide ValidArchive, WholeFolder, CrcFits;
    var decoded :- DecodeWithin(a, i, a.limits.maxTotalOutputBytes - totalOutput, control, log);
    if totalOutput + |decoded.bytes| > a.limits.maxTotalOutputBytes {
      return Failure(LimitExceeded(TotalOutputBytes));
    }
    if decoded.crcMismatch {
      return Failure(if decoded.encrypted then WrongPasswordOrCorrupt else Checksum(ChecksumScope.Folder, None));
    }
    return Success(decoded);
  }

  method NextEnd(f: Folder, j: nat, offset: nat, whole: Bytes, maxEntry: nat) returns (r: Result<nat>)
    requires j < |f.substreams| && OnlyLastUnknown(SizesOf(f)) && offset == Offset(SizesOf(f), j, |whole|)
    requires |whole| <= U64_MAX
    ensures r.Success? ==>
      offset <= r.value <= |whole| && CutOf(f, j, whole, maxEntry) == Some(Cut(whole, offset, r.value))
    ensures r.Success? ==> r.value == Offset(SizesOf(f), j + 1, |whole|)
    ensures r.Failure? ==>
      r.error.LimitExceeded? || r.error == Format(MemberRangeOverflows) || r.error == Format(MemberRangeOutside)
    ensures r.Failure? ==> CutOf(f, j, whole, maxEntry).None?
  {
    var end := |whole|;
    var size := f.substreams[j].size;
    assert SizesOf(f)[j] == size;
    if size.Some? {
      if offset + size.value > U64_MAX {
        return Failure(Format(MemberRangeOverflows));
      }
      end := offset + size.value;
    } else if j + 1 != |f.substreams| {
      return Failure(UnsupportedFeature(UnknownNonfinalSubstreamSize));
    }
    if end > |whole| || end < offset {
      return Failure(Format(MemberRangeOutside));
    }
    var _ :- CheckLimit(end - offset, maxEntry, EntryOutputBytes);
    return Success(end);
  }

  lemma CutIsExtracted(a: Archive, x: nat, remaining: nat, whole: Bytes, start: nat, end: nat)
    requires ValidArchive(a) && x < |a.entries| && a.entries[x].stream.Some? && !a.entries[x].isAnti
    requires HasFolder(a, a.entries[x].stream.value.folder)
    requires WholeFolder(a, a.entries[x].stream.value.folder, remaining) == Some(whole)
    requires CutOf(FolderAt(a, a.entries[x].stream.value.folder), a.entries[x].stream.value.substream, whole,
                   MaxEntry(a))
      == Some(Cut(whole, start, end))
    requires CrcFits(whole, FolderAt(a, a.entries[x].stream.value.folder).crc)
    ensures start <= end <= |whole| && OpeningWithin(a, x, remaining) == Some(Cut(whole, start, end))
    ensures CrcFits(whole[start..end], a.entries[x].stream.value.crc) ==>
      ExtractedWithin(a, x, remaining) == Some(whole[start..end])
  {
    hide ValidArchive, WholeFolder, CrcFits;
  }

  lemma ReadyForNext(a: Archive, c: Current)
    requires ValidArchive(a) && HasFolder(a, c.index) && c.next <= |FolderAt(a, c.index).substreams| && Ready(a, c)
    ensures OnlyLastUnknown(SizesOf(FolderAt(a, c.index))) || |FolderAt(a, c.index).substreams| == 0
    ensures |c.decoded.bytes| <= U64_MAX
  {
    hide ValidArchive, AllIntact, Admitted, Sound, EvalRoot, Permitted, AllAvailable;
    var remaining: nat :| remaining <= a.limits.maxTotalOutputBytes
        && WholeFolder(a, c.index, remaining) == Some(c.decoded.bytes);
    WholeWithin(a, c.index, remaining);
  }

  lemma WholeWithin(a: Archive, i: nat, remaining: nat)
    requires ValidArchive(a) && WholeFolder(a, i, remaining).Some?
    ensures |WholeFolder(a, i, remaining).value| <= remaining
  {
    hide ValidArchive, AllIntact, AllAvailable, Admitted, Decodable, SizesOf;
    FolderIsReady(a, i);
    var f := FolderAt(a, i);
    var env := EnvOf(a.bytes, a.streams.value.packStreams, f, a.codec, Cap(a, i, remaining), a.limits);
    AdmittedIsSound(f, a.limits, Cap(a, i, remaining), env);
    RootWithinCap(env);
  }

  /** Cuts the next member out of the current folder and delivers it. */
  method DeliverNext(a: Archive, x: nat, m: FileStream, c: Current, sink: EntrySink, ghost before: Trace,
                     ghost delivered: nat, control: ParseControl)
      returns (r: Result<Current>)
    requires ValidArchive(a) && x < |a.entries| && a.entries[x].stream == Some(m)
    requires HasFolder(a, c.index) && c.index == m.folder && c.next == m.substream < |FolderAt(a, c.index).substreams|
      && Ready(a, c)
    requires Follow(sink.events) == Some(before) && Delivered(a, before, x, delivered)
    requires c.offset <= |c.decoded.bytes|
      && delivered + |c.decoded.bytes| - c.offset <= a.limits.maxTotalOutputBytes
    modifies sink, control
    ensures r.Success? ==>
      && r.value.index == c.index && r.value.next == c.next + 1 && Ready(a, r.value)
      && r.value.decoded == c.decoded && c.offset <= r.value.offset <= |c.decoded.bytes|
      && MemberFits(FolderAt(a, c.index), c.next, c.decoded.bytes, MaxEntry(a))
      && exists bytes :: Follow(sink.events) == Some(Trace(x + 1, None, before.finished + [Delivery(x, bytes)]))
                         && AllJustified(a, before.finished + [Delivery(x, bytes)])
                            && |bytes| == r.value.offset - c.offset
    ensures r.Failure? ==> !OrderFault(r.error) && Follow(sink.events).Some? && RunOk(a, Follow(sink.events).value)
    ensures r.Failure? ==> Spent(Follow(sink.events).value) <= a.limits.maxTotalOutputBytes
    ensures r.Failure? ==>
      || (Interrupted(r) && control.stopped) || r.error == Error.Sink
      || !MemberFits(FolderAt(a, c.index), c.next, c.decoded.bytes, MaxEntry(a))
  {
    hide ValidArchive, WholeFolder, CutOf, OnlyLastUnknown, Offset, AllJustified, Justified, Follow, CrcFits;
    hide ExtractedWithin, OpeningWithin, Delivered, RunOk, Attempted, Spent, TotalBytes;
    DeliveredFacts(a, before, x, delivered);
    DeliveredSpent(a, before, x, delivered);
    DeliveredRunOk(a, before, x, delivered);
    ReadyForNext(a, c);
    EntryPlace(a, x);
    var f := FolderAt(a, c.index);
    var whole := c.decoded.bytes;
    var end :- NextEnd(f, c.next, c.offset, whole, a.limits.maxEntryOutputBytes);
    ghost var remaining: nat :| remaining <= a.limits.maxTotalOutputBytes
      && WholeFolder(a, c.index, remaining) == Some(whole);
    CutIsExtracted(a, x, remaining, whole, c.offset, end);
    var bytes := whole[c.offset..end];
    var done := DeliverMember(sink, x, bytes, m.crc, c.decoded.encrypted, before, control);
    if CrcFits(bytes, m.crc) {
      OneMoreJustified(a, before.finished, Delivery(x, bytes), remaining);
    }
    if done.Failure? {
      AttemptedRunOk(a, before, Follow(sink.events), x, delivered, bytes, m.crc, remaining);
      AttemptedSpent(before, Follow(sink.events), x, bytes, m.crc, a.limits.maxTotalOutputBytes);
      return Failure(done.error);
    }
    var next := Current(c.index, c.decoded, c.next + 1, end);
    assert Ready(a, next);
    return Success(next);
  }

  datatype Progress = Progress(current: Option<Current>, totalOutput: nat)

  /** Switches folders if the entry starts a new one. The checks that the previous
      folder is used up and that the entry is next in its folder cannot fail. */
  method MoveTo(a: Archive, x: nat, m: FileStream, p: Progress, control: ParseControl, ghost log: DecodeLog)
      returns (r: Result<Progress>)
    requires ValidArchive(a) && x < |a.entries| && a.entries[x].stream == Some(m)
    requires Standing(a, p.current, StreamIndex(Streamless(a.entries), x))
      && p.totalOutput <= a.limits.maxTotalOutputBytes
    requires DecodedUpTo(a, log.decoded, p.current) && InRoom(a, p)
    modifies control, log
    ensures r.Success? ==>
      && r.value.current.Some? && r.value.totalOutput <= a.limits.maxTotalOutputBytes && InRoom(a, r.value)
      && (r.value == p || (r.value.current.value.offset == 0
                           && r.value.totalOutput == p.totalOutput + |r.value.current.value.decoded.bytes|))
      && DecodedUpTo(a, log.decoded, r.value.current)
      && HasFolder(a, m.folder)
      && r.value.current.value.index == m.folder
         && r.value.current.value.next == m.substream < |FolderAt(a, m.folder).substreams|
      && Ready(a, r.value.current.value)
    ensures r.Failure? ==> !OrderFault(r.error) && DecodesOk(a, log.decoded)
    ensures r.Failure? ==> (Interrupted(r) && control.stopped) || !Passable(a)
  {
    hide ValidArchive, WholeFolder, StreamIndex, SubstreamsBefore, SizesOf, DecodedUpTo, DecodesOk, InRoom, Passable;
    hide Used, CrcFits;
    NextPlace(a, p.current, x);
    DecodedSoFar(a, log.decoded, p.current);
    if a.streams.None? {
      return Failure(Format(NoMainStreams));
    }
    var streams := a.streams.value;
    var progress := p;
    if p.current.None? || p.current.value.index != m.folder {
      if p.current.Some? {
        if p.current.value.index >= |streams.folders| {
          return Failure(Format(FolderIndexOutside));
        }
        if p.current.value.next != |streams.folders[p.current.value.index].substreams| {
          return Failure(Format(SubstreamsUnmapped));
        }
      }
      if m.folder >= |streams.folders| {
        return Failure(Format(FolderIndexOutside));
      }
      ghost var entered := Current(m.folder, DecodedFolder([], false, false), 0, 0);
      DecodesNext(a, log.decoded, p.current, x, entered);
      DecodedSoFar(a, log.decoded + [m.folder], Some(entered));
      UsedSoFar(a, p, x);
      var decoding := EnterFolder(a, m.folder, p.totalOutput, control, log);
      if decoding.Failure? {
        if !(Interrupted(decoding) && control.stopped) {
          FolderBlocks(a, m.folder);
        }
        return Failure(decoding.error);
      }
      var decoded := decoding.value;
      var current := Current(m.folder, decoded, 0, 0);
      EntersRoom(a, m.folder, p.totalOutput, current);
      StartsReady(a, current, a.limits.maxTotalOutputBytes - p.totalOutput);
      SameDecodes(a, log.decoded, entered, current);
      progress := Progress(Some(current), p.totalOutput + |decoded.bytes|);
    }
    if m.substream != progress.current.value.next {
      return Failure(Format(MappingOutOfOrder));
    }
    if m.substream >= |streams.folders[m.folder].substreams| {
      return Failure(Format(SubstreamIndexOutside));
    }
    return Success(progress);
  }

  lemma SameDecodes(a: Archive, decoded: seq<nat>, c: Current, d: Current)
    requires DecodedUpTo(a, decoded, Some(c)) && d.index == c.index
    ensures DecodedUpTo(a, decoded, Some(d))
  {
  }

  lemma StartsReady(a: Archive, c: Current, remaining: nat)
    requires ValidArchive(a) && HasFolder(a, c.index) && c.next == 0 == c.offset
    requires remaining <= a.limits.maxTotalOutputBytes && WholeFolder(a, c.index, remaining) == Some(c.decoded.bytes)
    requires CrcFits(c.decoded.bytes, FolderAt(a, c.index).crc)
      && c.decoded.encrypted == Encrypted(FolderAt(a, c.index))
    ensures Ready(a, c)
  {
    hide ValidArchive, WholeFolder;
  }

  /** An entry without a stream: an empty file is begun and finished, anything else skipped. */
  method ReportEmpty(a: Archive, x: nat, sink: EntrySink, ghost before: Trace, ghost delivered: nat)
      returns (r: Result<()>)
    requires ValidArchive(a) && x < |a.entries| && a.entries[x].stream.None?
    requires Follow(sink.events) == Some(before) && Delivered(a, before, x, delivered)
    requires delivered <= a.limits.maxTotalOutputBytes
    modifies sink
    ensures r.Success? ==> Follow(sink.events).Some? && Delivered(a, Follow(sink.events).value, x + 1, delivered)
    ensures r.Failure? ==> r.error == Error.Sink && Follow(sink.events).Some? && RunOk(a, Follow(sink.events).value)
    ensures r.Failure? ==> Spent(Follow(sink.events).value) <= a.limits.maxTotalOutputBytes
    ensures !Reported(a.entries[x]) ==> r.Success? && sink.events == old(sink.events)
  {
    hide ValidArchive, Follow, Justified, Delivered, RunOk, OpeningWithin, Spent, TotalBytes;
    DeliveredFacts(a, before, x, delivered);
    DeliveredSpent(a, before, x, delivered);
    if !Reported(a.entries[x]) {
      DeliveredNone(a, before, x, delivered);
      return Success(());
    }
    EmptyExtracted(a, x);
    OneMoreJustified(a, before.finished, Delivery(x, []), 0);
    DeliveredOne(a, before, x, delivered, []);
    FollowOne(sink.events, Begin(x, 0));
    var begun := sink.BeginEntry(x, 0);
    AttemptedRunOk(a, before, Follow(sink.events), x, delivered, [], None, 0);
    AttemptedSpent(before, Follow(sink.events), x, [], None, a.limits.maxTotalOutputBytes);
    if begun.Failure? {
      return Failure(begun.error);
    }
    FollowOne(sink.events, Finish(x));
    r := sink.FinishEntry(x);
    DeliveredRunOk(a, Follow(sink.events).value, x + 1, delivered);
    DeliveredSpent(a, Follow(sink.events).value, x + 1, delivered);
  }

  lemma EmptyExtracted(a: Archive, x: nat)
    requires ValidArchive(a) && x < |a.entries| && a.entries[x].stream.None? && Reported(a.entries[x])
    ensures ExtractedWithin(a, x, 0) == Some([]) && OpeningWithin(a, x, 0) == Some(Cut([], 0, 0))
  {
    hide ValidArchive;
  }

  // ----- The whole run.

  lemma StandingAfter(a: Archive, x: nat, c: Current, m: FileStream)
    requires ValidArchive(a) && x < |a.entries| && a.entries[x].stream == Some(m)
    requires HasFolder(a, m.folder) && c.index == m.folder && c.next == m.substream + 1
      && m.substream < |FolderAt(a, m.folder).substreams|
    requires Ready(a, c)
    ensures Standing(a, Some(c), StreamIndex(Streamless(a.entries), x + 1))
  {
    hide ValidArchive, Ready;
    EntryPlace(a, x);
  }

  lemma StandingSkips(a: Archive, x: nat, c: Option<Current>)
    requires ValidArchive(a) && x < |a.entries| && a.entries[x].stream.None?
    requires Standing(a, c, StreamIndex(Streamless(a.entries), x))
    ensures Standing(a, c, StreamIndex(Streamless(a.entries), x + 1))
  {
    hide ValidArchive, Ready;
  }

  /** At the end the current folder is used up. */
  lemma StandingAtEnd(a: Archive, c: Option<Current>)
    requires ValidArchive(a) && Standing(a, c, StreamIndex(Streamless(a.entries), |a.entries|)) && c.Some?
    ensures HasFolder(a, c.value.index) && c.value.next == |FolderAt(a, c.value.index).substreams|
  {
    hide Ready, FoldersReady, StreamIndex, SubstreamsBefore, Mappings;
    NoEntriesNoStreams(a);
    var folders := a.streams.value.folders;
    RowEnds(folders, c.value.index);
    SubstreamsMonotone(folders, c.value.index + 1, |folders|);
    assert |Mappings(folders, |folders|)| == SubstreamsBefore(folders, |folders|);
  }

  lemma NoEntriesNoStreams(a: Archive)
    ensures |a.entries| == 0 ==> StreamIndex(Streamless(a.entries), |a.entries|) == 0
  {
  }

  /** At the end of a run over some entries, every folder with substreams was decoded. */
  lemma AllDecoded(a: Archive, decoded: seq<nat>, c: Option<Current>)
    requires ValidArchive(a) && Standing(a, c, StreamIndex(Streamless(a.entries), |a.entries|))
      && DecodedUpTo(a, decoded, c)
    requires |a.entries| > 0
    ensures decoded == Divided(FoldersOf(a), |FoldersOf(a)|)
  {
    hide Ready, FoldersReady, StreamIndex, Mappings;
    var folders := FoldersOf(a);
    assert |AllStreams(a.streams)| == SubstreamsBefore(folders, |folders|);
    NothingBefore(folders);
    if c.Some? {
      StandingAtEnd(a, c);
      RowEnds(folders, c.value.index);
    }
    NothingDivided(folders, if c.None? then 0 else c.value.index + 1, |folders|);
  }

  method ExtractStreamed(a: Archive, x: nat, m: FileStream, p: Progress, delivered: nat, sink: EntrySink,
                         ghost before: Trace, control: ParseControl, ghost log: DecodeLog)
      returns (r: Result<Progress>, size: nat)
    requires ValidArchive(a) && x < |a.entries| && a.entries[x].stream == Some(m)
    requires Standing(a, p.current, StreamIndex(Streamless(a.entries), x))
      && p.totalOutput <= a.limits.maxTotalOutputBytes
    requires DecodedUpTo(a, log.decoded, p.current) && InRoom(a, p) && Bounded(p, delivered)
    requires Follow(sink.events) == Some(before) && Delivered(a, before, x, delivered)
    modifies sink, control, log
    ensures r.Success? ==>
      && InRoom(a, r.value) && Bounded(r.value, delivered + size)
      && Standing(a, r.value.current, StreamIndex(Streamless(a.entries), x + 1))
      && r.value.totalOutput <= a.limits.maxTotalOutputBytes && DecodedUpTo(a, log.decoded, r.value.current)
      && Follow(sink.events).Some? && Delivered(a, Follow(sink.events).value, x + 1, delivered + size)
    ensures r.Failure? ==>
      && !OrderFault(r.error) && DecodesOk(a, log.decoded)
      && Follow(sink.events).Some? && RunOk(a, Follow(sink.events).value)
      && Spent(Follow(sink.events).value) <= a.limits.maxTotalOutputBytes
    ensures r.Failure? ==> (Interrupted(r) && control.stopped) || r.error == Error.Sink || !Passable(a)
  {
    hide ValidArchive, Standing, Ready, Delivered, Follow, AllJustified, RunOk, DecodedUpTo, DecodesOk, StreamIndex;
    hide InRoom, Passable, MemberFits, Spent;
    size := 0;
    DeliveredRunOk(a, before, x, delivered);
    DeliveredSpent(a, before, x, delivered);
    var moved := MoveTo(a, x, m, p, control, log);
    if moved.Failure? {
      return Failure(moved.error), size;
    }
    var current := moved.value.current.value;
    DecodedSoFar(a, log.decoded, moved.value.current);
    var next := DeliverNext(a, x, m, current, sink, before, delivered, control);
    if next.Failure? {
      if !(Interrupted(next) && control.stopped) && next.error != Error.Sink {
        MemberBlocks(a, current, moved.value.totalOutput);
      }
      return Failure(next.error), size;
    }
    MemberPassed(a, current, next.value, moved.value.totalOutput);
    size := next.value.offset - current.offset;
    ghost var bytes :| Follow(sink.events) == Some(Trace(x + 1, None, before.finished + [Delivery(x, bytes)]))
                       && AllJustified(a, before.finished + [Delivery(x, bytes)]) && |bytes| == size;
    DeliveredOne(a, before, x, delivered, bytes);
    StandingAfter(a, x, next.value, m);
    SameDecodes(a, log.decoded, current, next.value);
    return Success(Progress(Some(next.value), moved.value.totalOutput)), size;
  }

  /** On every run the sink sees begin, writes and finish, entry by entry in increasing
      order; the finished entries are the first of those due, with the bytes random
      access gives; and the folders decoded are the first of those with substreams, each
      once. Success reports every entry that is due, and with any entries at all decodes
      every folder that has substreams. */
  method ExtractEntriesTo(a: Archive, sink: EntrySink, control: ParseControl, ghost log: DecodeLog)
      returns (r: Result<nat>)
    requires ValidArchive(a) && sink.events == [] && log.decoded == []
    modifies sink, control, log
    ensures Follow(sink.events).Some? && RunOk(a, Follow(sink.events).value)
    ensures r.Success? ==>
      var t := Follow(sink.events).value;
      t.open.None? && MembersOf(t.finished) == ReportedBefore(a.entries, |a.entries|)
        && TotalBytes(t.finished) == r.value
    ensures Spent(Follow(sink.events).value) <= a.limits.maxTotalOutputBytes
    ensures r.Success? && |a.entries| > 0 ==> Passable(a)
    ensures r.Failure? ==> (Interrupted(r) && control.stopped) || r.error == Error.Sink || !Passable(a)
    ensures r.Failure? ==> !OrderFault(r.error)
    ensures DecodesOk(a, log.decoded)
    ensures r.Success? && |a.entries| > 0 ==> log.decoded == Divided(FoldersOf(a), |FoldersOf(a)|)
  {
    hide ValidArchive, Standing, Ready, Delivered, Follow, AllJustified, RunOk, DecodedUpTo, DecodesOk, StreamIndex;
    hide InRoom, Used, Spent;
    var progress := Progress(None, 0);
    var delivered: nat := 0;
    AtStart(a);
    for x := 0 to |a.entries|
      invariant Follow(sink.events).Some? && Delivered(a, Follow(sink.events).value, x, delivered)
      invariant Standing(a, progress.current, StreamIndex(Streamless(a.entries), x))
      invariant DecodedUpTo(a, log.decoded, progress.current) && progress.totalOutput <= a.limits.maxTotalOutputBytes
      invariant InRoom(a, progress) && Bounded(progress, delivered)
    {
      ghost var before := Follow(sink.events).value;
      DeliveredRunOk(a, before, x, delivered);
      DeliveredSpent(a, before, x, delivered);
      DecodedSoFar(a, log.decoded, progress.current);
      var _ :- control.Checkpoint(1);
      if a.entries[x].stream.None? {
        var _ :- ReportEmpty(a, x, sink, before, delivered);
        StandingSkips(a, x, progress.current);
      } else {
        var moved, size := ExtractStreamed(a, x, a.entries[x].stream.value, progress, delivered, sink, before, control,
                                           log);
        if moved.Failure? {
          return Failure(moved.error);
        }
        progress := moved.value;
        if delivered + size > U64_MAX {
          return Failure(Format(DeliveredOverflows));
        }
        delivered := delivered + size;
      }
    }
    AtEnd(a, Follow(sink.events).value, delivered);
    DecodedSoFar(a, log.decoded, progress.current);
    DeliveredSpent(a, Follow(sink.events).value, |a.entries|, delivered);
    if |a.entries| > 0 {
      AllDecoded(a, log.decoded, progress.current);
      AllPassed(a, progress);
    }
    if a.streams.Some? && progress.current.Some? {
      StandingAtEnd(a, progress.current);
      var index := progress.current.value.index;
      if index >= |a.streams.value.folders| {
        return Failure(Format(FolderIndexOutside));
      }
      if progress.current.value.next != |a.streams.value.folders[index].substreams| {
        return Failure(Format(SubstreamsUnmapped));
      }
    }
    return Success(delivered);
  }

  lemma AtStart(a: Archive)
    requires ValidArchive(a)
    ensures InRoom(a, Progress(None, 0))
    ensures Follow([]) == Some(Trace(0, None, [])) && Delivered(a, Trace(0, None, []), 0, 0)
    ensures StreamIndex(Streamless(a.entries), 0) == 0 && Standing(a, None, 0) && DecodedUpTo(a, [], None)
  {
    hide ValidArchive;
  }

  lemma AtEnd(a: Archive, t: Trace, delivered: nat)
    requires ValidArchive(a) && Delivered(a, t, |a.entries|, delivered)
    ensures t.open.None? && RunOk(a, t)
    ensures MembersOf(t.finished) == ReportedBefore(a.entries, |a.entries|) && TotalBytes(t.finished) == delivered
  {
    hide ValidArchive, Justified;
  }

  // ----- Agreement with random access.

  /** With codecs that do not depend on spare room, every finished member's bytes are
      exactly what extracting that member alone returns. */
  lemma DeliveredIsExtracted(a: Archive, d: Delivery)
    requires ValidArchive(a) && Monotone(a.codec) && Justified(a, d)
    ensures Extracted(a, d.member) == Some(d.bytes)
  {
    hide ValidArchive, Monotone, ExtractedWithin;
    var remaining: nat :| remaining <= a.limits.maxTotalOutputBytes
        && ExtractedWithin(a, d.member, remaining) == Some(d.bytes);
    ExtractedWithMoreRoom(a, d.member, remaining, a.limits.maxTotalOutputBytes);
  }

  /** Directories and anti-items are never reported. */
  lemma {:induction false} OnlyReported(entries: seq<FileEntry>, n: nat, k: nat)
    requires n <= |entries| && k < |ReportedBefore(entries, n)|
    ensures ReportedBefore(entries, n)[k] < n
    ensures
      var e := entries[ReportedBefore(entries, n)[k]];
      e.stream.Some? || (e.isEmptyFile && !e.isAnti)
    decreases n
  {
    if k < |ReportedBefore(entries, n - 1)| {
      OnlyReported(entries, n - 1, k);
    }
  }

  lemma {:induction false} AllReported(entries: seq<FileEntry>, n: nat, x: nat)
    requires x < n <= |entries| && (entries[x].stream.Some? || (entries[x].isEmptyFile && !entries[x].isAnti))
    ensures x in ReportedBefore(entries, n)
    decreases n
  {
    if x < n - 1 {
      AllReported(entries, n - 1, x);
    }
  }

  /** On every run, every event is about an entry that is due: directories and
      anti-items emit nothing. */
  lemma OnlyDueEvents(a: Archive, events: seq<Event>, k: nat)
    requires ValidArchive(a) && Follow(events).Some? && RunOk(a, Follow(events).value) && k < |events|
    ensures About(events[k]) < |a.entries|
    ensures
      var e := a.entries[About(events[k])];
      e.stream.Some? || (e.isEmptyFile && !e.isAnti)
  {
    hide ValidArchive, Follow, AllJustified, OpeningWithin;
    var t := Follow(events).value;
    EventsKnown(events, k);
    if exists d :: d in t.finished && d.member == About(events[k]) {
      var d :| d in t.finished && d.member == About(events[k]);
      var j :| 0 <= j < |t.finished| && t.finished[j] == d;
      assert MembersOf(t.finished)[j] == ReportedBefore(a.entries, |a.entries|)[j];
      OnlyReported(a.entries, |a.entries|, j);
    }
  }

  // ----- The deliveries of a folder.

  /** What was delivered for the members of folder i, in order. */
  function FolderDeliveries(a: Archive, ds: seq<Delivery>, i: nat): seq<Bytes>
  {
    if |ds| == 0 then []
    else
      var last := ds[|ds| - 1];
      FolderDeliveries(a, ds[..|ds| - 1], i) + if InFolder(a, last.member, i) then [last.bytes] else []
  }

  predicate InFolder(a: Archive, x: nat, i: nat) {
    x < |a.entries| && a.entries[x].stream.Some? && a.entries[x].stream.value.folder == i
  }

  /** The first n entries' members of folder i. */
  function FolderMembers(a: Archive, i: nat, n: nat): seq<nat>
    requires n <= |a.entries|
  {
    if n == 0 then [] else FolderMembers(a, i, n - 1) + if InFolder(a, n - 1, i) then [n - 1] else []
  }

  function Clamp(value: int, high: nat): nat {
    if value < 0 then 0 else if value > high then high else value
  }

  /** They are its substreams' entries, substream by substream. */
  lemma {:induction false} MembersInOrder(a: Archive, i: nat, n: nat)
    requires ValidArchive(a) && HasFolder(a, i) && n <= |a.entries|
    ensures |FolderMembers(a, i, n)|
      == Clamp(StreamIndex(Streamless(a.entries), n) - SubstreamsBefore(a.streams.value.folders, i),
               |FolderAt(a, i).substreams|)
    ensures forall j :: 0 <= j < |FolderMembers(a, i, n)| ==> IsMember(a, FolderMembers(a, i, n)[j], i, j)
    decreases n
  {
    hide ValidArchive, SubstreamsBefore;
    if n > 0 {
      MembersInOrder(a, i, n - 1);
      if a.entries[n - 1].stream.Some? {
        EntryPlace(a, n - 1);
        var folders, at := a.streams.value.folders, a.entries[n - 1].stream.value.folder;
        RowEnds(folders, at);
        RowEnds(folders, i);
        if at < i {
          SubstreamsMonotone(folders, at + 1, i);
        } else if at > i {
          SubstreamsMonotone(folders, i + 1, at);
        }
      }
    }
  }

  /** The folder's deliveries are its members' extractions. */
  lemma {:induction false} DeliveriesMatch(a: Archive, ds: seq<Delivery>, i: nat, n: nat)
    requires ValidArchive(a) && Monotone(a.codec) && n <= |a.entries|
    requires AllJustified(a, ds) && MembersOf(ds) == ReportedBefore(a.entries, n)
    ensures |FolderDeliveries(a, ds, i)| == |FolderMembers(a, i, n)|
    ensures forall j :: 0 <= j < |FolderMembers(a, i, n)| ==>
      Extracted(a, FolderMembers(a, i, n)[j]) == Some(FolderDeliveries(a, ds, i)[j])
    decreases n
  {
    hide ValidArchive, Monotone, Extracted, Justified;
    assert |ds| == |MembersOf(ds)|;
    if n > 0 {
      if Reported(a.entries[n - 1]) {
        var m := |ds| - 1;
        assert MembersOf(ds)[m] == n - 1;
        assert MembersOf(ds[..m]) == MembersOf(ds)[..m] == ReportedBefore(a.entries, n - 1);
        DeliveriesMatch(a, ds[..m], i, n - 1);
        assert ds[m] in ds;
        DeliveredIsExtracted(a, ds[m]);
      } else {
        DeliveriesMatch(a, ds, i, n - 1);
      }
    }
  }

  lemma AllMembers(a: Archive, i: nat)
    requires ValidArchive(a) && HasFolder(a, i) && |a.entries| > 0
    ensures |FolderMembers(a, i, |a.entries|)| == |FolderAt(a, i).substreams|
  {
    hide FoldersReady, StreamIndex, Mappings, SubstreamsBefore;
    MembersInOrder(a, i, |a.entries|);
    var folders := a.streams.value.folders;
    RowEnds(folders, i);
    SubstreamsMonotone(folders, i + 1, |folders|);
    assert |Mappings(folders, |folders|)| == SubstreamsBefore(folders, |folders|);
  }

  /** After a successful run over a valid archive, what was delivered for a folder's
      members concatenates to the whole decoded folder. (An archive without entries
      delivers nothing.) */
  lemma RunFillsFolder(a: Archive, t: Trace, i: nat)
    requires ValidArchive(a) && Monotone(a.codec) && |a.entries| > 0
    requires RunOk(a, t) && MembersOf(t.finished) == ReportedBefore(a.entries, |a.entries|)
    requires HasFolder(a, i) && |FolderAt(a, i).substreams| > 0
    ensures WholeFolder(a, i, a.limits.maxTotalOutputBytes)
      == Some(Checksums.Concat(FolderDeliveries(a, t.finished, i)))
  {
    hide ValidArchive, Monotone, Justified, Extracted, WholeFolder, OpenOk, FolderDeliveries, FolderMembers;
    var n := |a.entries|;
    var xs := FolderMembers(a, i, n);
    DeliveriesMatch(a, t.finished, i, n);
    MembersInOrder(a, i, n);
    AllMembers(a, i);
    assert seq(|xs|, j requires 0 <= j < |xs| => ExtractedBytes(a, xs[j])) == FolderDeliveries(a, t.finished, i);
    MembersFillFolder(a, i, xs);
  }
}
