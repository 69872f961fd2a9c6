/** What the parser lets through, whatever the bytes: only records a writer can put
    down again, and only within the limits. */
module AcceptedHeaders {
  import opened Support
  import opened Bounded
  import opened Model
  import opened Reading
  import opened FolderSyntax
  import opened SubstreamSyntax
  import opened StreamSyntax
  import opened StreamWriter

  // ----- Folders.

  lemma CoderLetThrough(bytes: Bytes, p: nat, maximum: nat)
    requires p <= |bytes| && CoderAt(bytes, p, maximum).Success?
    ensures
      var c := CoderAt(bytes, p, maximum).value.value;
      CoderHeld(c) && |c.properties| <= maximum
  {
    hide UintAt;
  }

  lemma {:induction false} CodersLetThrough(bytes: Bytes, p: nat, count: nat, maximum: nat)
    requires p <= |bytes| && CodersAt(bytes, p, count, maximum).Success?
    ensures forall c :: c in CodersAt(bytes, p, count, maximum).value.value.coders ==>
      CoderHeld(c) && |c.properties| <= maximum
    decreases count
  {
    hide CoderAt, CoderHeld;
    if count > 0 {
      CodersLetThrough(bytes, p, count - 1, maximum);
      CoderLetThrough(bytes, CodersAt(bytes, p, count - 1, maximum).value.end, maximum);
    }
  }

  lemma FolderLetThrough(bytes: Bytes, p: nat, limits: Limits, t: Totals)
    requires p <= |bytes| && FolderAt(bytes, p, limits, t.coders, t.streams).Success?
    ensures
      var run := FolderAt(bytes, p, limits, t.coders, t.streams).value.value;
      && FolderHeld(run.folder) && FolderAllowed(run.folder, limits) && Bare(run.folder) == run.folder
      && t.(coders := run.coders, streams := run.streams) == AfterFolder(run.folder, t)
      && run.coders <= limits.maxTotalCoders && run.streams <= limits.maxTotalStreams
  {
    hide UintAt, BindsAt, PackedIndicesAt, CodersAt, FolderCounted, CoderHeld;
    var count := UintAt(bytes, p).value;
    ParsedFolderCounted(bytes, p, limits, t.coders, t.streams);
    CodersLetThrough(bytes, count.end, count.value, limits.maxCoderPropertyBytes);
  }

  lemma AfterPrefix(a: seq<RawFolder>, b: seq<RawFolder>, n: nat, t: Totals)
    requires n <= |a| && n <= |b| && forall i :: 0 <= i < n ==> Bare(a[i]) == Bare(b[i])
    ensures AfterFolders(a, n, t) == AfterFolders(b, n, t)
    decreases n
  {
    if n > 0 {
      AfterPrefix(a, b, n - 1, t);
    }
  }

  lemma {:induction false} FoldersLetThrough(bytes: Bytes, p: nat, n: nat, limits: Limits, t: Totals)
    requires p <= |bytes| && FoldersAt(bytes, p, n, limits, t).Success?
    ensures
      var run := FoldersAt(bytes, p, n, limits, t).value.value;
      && FoldersHeld(run.value) && FoldersAllowed(run.value, limits) && run.totals == AfterFolders(run.value, n, t)
      && (Within(t, limits) ==> Within(run.totals, limits))
    decreases n
  {
    hide FolderAt, FolderHeld, FolderAllowed, FoldersCounted;
    if n > 0 {
      FoldersLetThrough(bytes, p, n - 1, limits, t);
      var before := FoldersAt(bytes, p, n - 1, limits, t).value;
      var run := FoldersAt(bytes, p, n, limits, t).value.value;
      FolderLetThrough(bytes, before.end, limits, before.value.totals);
      AfterPrefix(before.value.value, run.value, n - 1, t);
    }
  }

  lemma {:induction false} SizesKeepFolders(bytes: Bytes, p: nat, folders: seq<RawFolder>, k: nat)
    requires p <= |bytes| && k <= |folders| && FoldersCounted(folders)
    requires SizedFoldersAt(bytes, p, folders, k).Success?
    ensures forall i :: 0 <= i < k ==> Bare(SizedFoldersAt(bytes, p, folders, k).value.value[i]) == Bare(folders[i])
    decreases k
  {
    hide FolderCounted, UintsAt;
    if k > 0 {
      SizesKeepFolders(bytes, p, folders, k - 1);
    }
  }

  lemma SameBare(a: RawFolder, b: RawFolder, limits: Limits)
    requires Bare(a) == Bare(b)
    ensures FolderHeld(a) == FolderHeld(b) && FolderAllowed(a, limits) == FolderAllowed(b, limits)
  {
    hide FolderCounted;
    assert a == b.(unpackSizes := a.unpackSizes);
    SizesKeepCounts(b, a.unpackSizes);
  }

  lemma BareDecides(a: seq<RawFolder>, b: seq<RawFolder>, limits: Limits, t: Totals)
    requires |a| == |b| && forall i :: 0 <= i < |a| ==> Bare(a[i]) == Bare(b[i])
    requires FoldersHeld(a) && FoldersAllowed(a, limits)
    ensures FoldersHeld(b) && FoldersAllowed(b, limits) && AfterFolders(a, |a|, t) == AfterFolders(b, |b|, t)
  {
    hide FolderHeld, FolderAllowed, Bare;
    AfterPrefix(a, b, |a|, t);
    forall i | 0 <= i < |b| ensures FolderHeld(b[i]) && FolderAllowed(b[i], limits) {
      SameBare(a[i], b[i], limits);
    }
  }

  lemma TailKeepsFolders(bytes: Bytes, p: nat, folders: seq<RawFolder>)
    requires p <= |bytes| && FoldersCounted(folders) && 0 < |folders| <= U64_MAX
      && UnpackTailAt(bytes, p, folders).Success?
    ensures
      var u := UnpackTailAt(bytes, p, folders).value.value;
      && UnpackCounted(u) && |u.folders| == |folders|
      && forall i :: 0 <= i < |folders| ==> Bare(u.folders[i]) == Bare(folders[i])
  {
    hide FoldersCounted, CrcsAt, UnpackCounted, SizedFoldersAt, Bare;
    SizesKeepFolders(bytes, p + 1, folders, |folders|);
  }

  lemma SourceLetThrough(bytes: Bytes, p: nat, n: nat, limits: Limits, t: Totals,
                         external: Option<ExternalFolderData>)
    requires p <= |bytes| && FolderSourceAt(bytes, p, n, limits, t, external).Success?
    ensures
      var run := FolderSourceAt(bytes, p, n, limits, t, external).value.value;
      && (run.value.Elsewhere? ==> run.totals == t)
      && (run.value.Known? ==>
            var folders := run.value.folders;
            && FoldersHeld(folders) && FoldersAllowed(folders, limits)
            && run.totals == AfterFolders(folders, |folders|, t)
            && (Within(t, limits) ==> Within(run.totals, limits)))
  {
    hide UintAt, FoldersAt, FoldersCounted, FoldersHeld, FoldersAllowed, AfterFolders, Within;
    var flag := U8At(bytes, p).value;
    if flag.value == 0 {
      FoldersLetThrough(bytes, flag.end, n, limits, t);
    } else if external.Some? {
      if FoldersAt(external.value.bytes, 0, n, limits, t).Success? {
        FoldersLetThrough(external.value.bytes, 0, n, limits, t);
      }
    }
  }

  lemma UnpackLetThrough(bytes: Bytes, p: nat, limits: Limits, t: Totals, external: Option<ExternalFolderData>)
    requires p <= |bytes| && UnpackInfoAt(bytes, p, limits, t, external).Success? && Within(t, limits)
    ensures
      var run := UnpackInfoAt(bytes, p, limits, t, external).value.value;
      && Within(run.totals, limits)
      && (run.value.CompleteUnpack? ==>
            && UnpackHeld(run.value.unpack) && FoldersAllowed(run.value.unpack.folders, limits)
            && run.totals == AfterUnpack(run.value.unpack, t))
  {
    hide UintAt, FolderSourceAt, UnpackTailAt, FoldersCounted, FoldersHeld, FoldersAllowed, AfterFolders, UnpackCounted,
         Bare;
    var count := UintAt(bytes, p + 1).value;
    var after := t.(folders := t.folders + count.value);
    var source := FolderSourceAt(bytes, count.end, count.value, limits, after, external).value;
    SourceLetThrough(bytes, count.end, count.value, limits, after, external);
    if source.value.value.Known? {
      var folders := source.value.value.folders;
      TailKeepsFolders(bytes, source.end, folders);
      BareDecides(folders, UnpackTailAt(bytes, source.end, folders).value.value.folders, limits, after);
    }
  }

  // ----- Sections.

  lemma PackLetThrough(bytes: Bytes, p: nat, limits: Limits, t: Totals)
    requires p <= |bytes| && PackStageAt(bytes, p, limits, t).Success? && Within(t, limits)
    ensures
      var run := PackStageAt(bytes, p, limits, t).value.value;
      run.totals == AfterPackPart(run.value.value, t) && Within(run.totals, limits)
  {
    hide UintAt, SizesAt, CrcsAt;
  }

  lemma EndLetThrough(bytes: Bytes, p: nat, pack: Option<RawPackInfo>, unpack: Option<RawUnpackInfo>, id: u8,
                      limits: Limits, t: Totals)
    requires p <= |bytes| && (pack.Some? ==> PackCounted(pack.value)) && (unpack.Some? ==> UnpackCounted(unpack.value))
    requires EndAt(bytes, p, pack, unpack, id, limits, t).Success? && Within(t, limits)
    ensures
      var run := EndAt(bytes, p, pack, unpack, id, limits, t).value.value;
      && run.value.Complete? && run.value.raw.pack == pack && run.value.raw.unpack == unpack
      && run.totals == AfterSubstreams(unpack, run.value.raw.substreams, t) && Within(run.totals, limits)
  {
    hide CountsAt, SizesAt, CrcsAt, CountsAgree, PackCounted, UnpackCounted, TotalBefore, Sum;
    if id == 0x08 {
      var counts := CountsAt(bytes, p, |unpack.value.folders|).value.value.value;
      TotalIsSum(counts, |counts|);
      assert counts[..|counts|] == counts;
    }
  }

  lemma StreamsLetThrough(bytes: Bytes, p: nat, limits: Limits, t: Totals, external: Option<ExternalFolderData>)
    requires p <= |bytes| && StreamsInfoAt(bytes, p, limits, t, external).Success? && Within(t, limits)
    ensures
      var run := StreamsInfoAt(bytes, p, limits, t, external).value.value;
      && Within(run.totals, limits)
      && (run.value.Complete? ==>
            && StreamsHeld(run.value.raw) && StreamsAllowed(run.value.raw, limits)
            && run.totals == AfterStreams(run.value.raw, t))
  {
    hide PackStageAt, UnpackInfoAt, EndAt, PackCounted, Counted, UnpackHeld, UnpackCounted, AfterPackPart,
         AfterSubstreams, AfterUnpack, Within, FoldersAllowed;
    PackLetThrough(bytes, p, limits, t);
    var pack := PackStageAt(bytes, p, limits, t).value;
    var totals := pack.value.totals;
    if pack.value.value.id == 0x07 {
      UnpackLetThrough(bytes, pack.end, limits, totals, external);
      var unpack := UnpackInfoAt(bytes, pack.end, limits, totals, external).value;
      if unpack.value.value.CompleteUnpack? {
        EndLetThrough(bytes, unpack.end + 1, pack.value.value.value, Some(unpack.value.value.unpack),
                      bytes[unpack.end], limits, unpack.value.totals);
      }
    } else {
      EndLetThrough(bytes, pack.end, pack.value.value.value, None, pack.value.value.id, limits, totals);
    }
  }
}
