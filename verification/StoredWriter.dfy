/** The streams of a stored archive: folders of one Copy coder each, every folder holding
    several members one behind the other. Validation accepts them and gives back the
    members' sizes and checksums. */
module StoredWriter {
  import opened Support
  import opened Sequences
  import opened Model
  import opened Scheduling
  import opened Graph
  import opened Folders
  import opened SubstreamSyntax
  import opened FolderValidation
  import opened StreamValidation
  import opened HeaderValidation
  import opened SectionMeaning
  import Checksums

  // ----- The members of one folder.

  predicate MembersHeld(members: seq<Bytes>) {
    0 < |members| <= U64_MAX && |Checksums.Concat(members)| < U64_MAX
  }

  lemma {:induction false} LengthWithin(members: seq<Bytes>, j: nat)
    requires j < |members|
    ensures |members[j]| <= |Checksums.Concat(members)|
    decreases |members|
  {
    if j < |members| - 1 {
      LengthWithin(members[..|members| - 1], j);
    }
  }

  function Lengths(members: seq<Bytes>): (lengths: seq<u64>)
    requires |Checksums.Concat(members)| < U64_MAX
    ensures |lengths| == |members|
  {
    seq(|members|, j requires 0 <= j < |members| => Length(members, j))
  }

  function Length(members: seq<Bytes>, j: nat): u64
    requires j < |members| && |Checksums.Concat(members)| < U64_MAX
  {
    LengthWithin(members, j);
    |members[j]|
  }

  function CrcsOf(members: seq<Bytes>): (crcs: seq<Option<bv32>>)
    ensures |crcs| == |members|
  {
    seq(|members|, j requires 0 <= j < |members| => Some(Checksums.Crc(members[j])))
  }

  lemma {:induction false} ConcatGrows(members: seq<Bytes>, n: nat)
    requires n <= |members|
    ensures |Checksums.Concat(members[..n])| <= |Checksums.Concat(members)|
    decreases |members|
  {
    if n < |members| {
      ConcatGrows(members[..|members| - 1], n);
      assert members[..|members| - 1][..n] == members[..n];
    } else {
      assert members[..n] == members;
    }
  }

  lemma {:induction false} ConcatLength(members: seq<Bytes>, n: nat)
    requires n <= |members| && |Checksums.Concat(members)| < U64_MAX
    ensures |Checksums.Concat(members[..n])| == Sum(Lengths(members)[..n])
    decreases n
  {
    if n > 0 {
      ConcatLength(members, n - 1);
      SumAppend(Lengths(members)[..n - 1], Lengths(members)[n - 1]);
      assert Lengths(members)[..n] == Lengths(members)[..n - 1] + [Lengths(members)[n - 1]];
      assert members[..n][..n - 1] == members[..n - 1];
    }
  }

  /** Member j stands behind the members before it. */
  lemma {:induction false} MemberStands(members: seq<Bytes>, n: nat, j: nat)
    requires j < n <= |members|
    ensures At(Checksums.Concat(members[..n]), |Checksums.Concat(members[..j])|, members[j])
    decreases n
  {
    var before, whole := Checksums.Concat(members[..n - 1]), Checksums.Concat(members[..n]);
    assert members[..n][..n - 1] == members[..n - 1];
    if j < n - 1 {
      MemberStands(members, n - 1, j);
      var start := |Checksums.Concat(members[..j])|;
      assert whole[start..start + |members[j]|] == before[start..start + |members[j]|];
    }
  }

  // ----- The section.

  predicate ContentsHeld(contents: seq<seq<Bytes>>) {
    0 < |contents| <= U64_MAX && forall i :: 0 <= i < |contents| ==> MembersHeld(contents[i])
  }

  function PackSizes(contents: seq<seq<Bytes>>): (sizes: seq<u64>)
    requires ContentsHeld(contents)
    ensures |sizes| == |contents|
  {
    seq(|contents|, i requires 0 <= i < |contents| => |Checksums.Concat(contents[i])|)
  }

  function PackCrcs(contents: seq<seq<Bytes>>): (crcs: seq<Option<bv32>>)
    ensures |crcs| == |contents|
  {
    seq(|contents|, i requires 0 <= i < |contents| => Some(Checksums.Crc(Checksums.Concat(contents[i]))))
  }

  function Counts(contents: seq<seq<Bytes>>): (counts: seq<u64>)
    requires ContentsHeld(contents)
    ensures |counts| == |contents|
  {
    seq(|contents|, i requires 0 <= i < |contents| => |contents[i]|)
  }

  /** All sizes but the last of each folder. */
  function LaidSizes(contents: seq<seq<Bytes>>, n: nat): seq<u64>
    requires ContentsHeld(contents) && n <= |contents|
  {
    if n == 0 then []
    else LaidSizes(contents, n - 1) + Lengths(contents[n - 1])[..|contents[n - 1]| - 1]
  }

  /** The digests of all members that are not alone in their folder. */
  function LaidCrcs(contents: seq<seq<Bytes>>, n: nat): seq<Option<bv32>>
    requires n <= |contents|
  {
    if n == 0 then []
    else LaidCrcs(contents, n - 1) + if |contents[n - 1]| == 1 then [] else CrcsOf(contents[n - 1])
  }

  function FolderRecord(size: u64): RawFolder {
    RawFolder([RawCoder([0x00], 1, 1, [])], 1, 1, [], 1, None, [size])
  }

  function FolderRecords(contents: seq<seq<Bytes>>): (folders: seq<RawFolder>)
    requires ContentsHeld(contents)
    ensures |folders| == |contents|
  {
    seq(|contents|, i requires 0 <= i < |contents| => FolderRecord(PackSizes(contents)[i]))
  }

  function WrittenStreams(contents: seq<seq<Bytes>>, position: u64): RawStreamsInfo
    requires ContentsHeld(contents)
  {
    var n := |contents|;
    RawStreamsInfo(
      Some(RawPackInfo(position, n, Some(PackSizes(contents)), Some(PackCrcs(contents)))),
      Some(RawUnpackInfo(FolderRecords(contents), Some(PackCrcs(contents)))),
      Some(RawSubstreams(Counts(contents), Some(LaidSizes(contents, n)), Some(LaidCrcs(contents, n)))))
  }

  // ----- The lists, folder by folder.

  lemma {:induction false} SizesCounted(contents: seq<seq<Bytes>>, n: nat)
    requires ContentsHeld(contents) && n <= |contents|
    ensures |LaidSizes(contents, n)| == ExplicitBefore(Counts(contents), n)
    decreases n
  {
    hide MembersHeld;
    if n > 0 {
      HeldAt(contents, n - 1);
      SizesCounted(contents, n - 1);
    }
  }

  lemma {:induction false} SizeListed(contents: seq<seq<Bytes>>, n: nat, i: nat, j: nat)
    requires ContentsHeld(contents) && i < n <= |contents| && j < |contents[i]| - 1
    ensures ExplicitBefore(Counts(contents), i) + j < |LaidSizes(contents, n)|
    ensures LaidSizes(contents, n)[ExplicitBefore(Counts(contents), i) + j] == |contents[i][j]|
    decreases n
  {
    hide MembersHeld;
    HeldAt(contents, n - 1);
    SizesCounted(contents, n - 1);
    if i < n - 1 {
      SizeListed(contents, n - 1, i, j);
    }
  }

  lemma HeldAt(contents: seq<seq<Bytes>>, i: nat)
    requires ContentsHeld(contents) && i < |contents|
    ensures 0 < |contents[i]| && |Checksums.Concat(contents[i])| < U64_MAX
  {
  }

  lemma NoneBefore(contents: seq<seq<Bytes>>)
    requires ContentsHeld(contents)
    ensures DigestsBefore(Counts(contents), Some(PackCrcs(contents)), 0) == 0
  {
  }

  /** A member alone in its folder has the folder's digest and needs none in the list. */
  lemma NextDigests(contents: seq<seq<Bytes>>, i: nat)
    requires ContentsHeld(contents) && i < |contents|
    ensures DigestsBefore(Counts(contents), Some(PackCrcs(contents)), i + 1)
      == DigestsBefore(Counts(contents), Some(PackCrcs(contents)), i)
         + if |contents[i]| == 1 then 0 else |contents[i]|
  {
    hide Checksums.Crc, Checksums.Concat;
  }

  lemma {:induction false} CrcsCounted(contents: seq<seq<Bytes>>, n: nat)
    requires ContentsHeld(contents) && n <= |contents|
    ensures |LaidCrcs(contents, n)| == DigestsBefore(Counts(contents), Some(PackCrcs(contents)), n)
    decreases n
  {
    hide MembersHeld, Checksums.Crc, Checksums.Concat, DigestsBefore;
    NoneBefore(contents);
    if n > 0 {
      CrcsCounted(contents, n - 1);
      NextDigests(contents, n - 1);
    }
  }

  lemma {:induction false} CrcListed(contents: seq<seq<Bytes>>, n: nat, i: nat, j: nat)
    requires ContentsHeld(contents) && i < n <= |contents| && |contents[i]| != 1 && j < |contents[i]|
    ensures
      var at := DigestsBefore(Counts(contents), Some(PackCrcs(contents)), i) + j;
      && at < |LaidCrcs(contents, n)|
      && LaidCrcs(contents, n)[at] == Some(Checksums.Crc(contents[i][j]))
    decreases n
  {
    hide MembersHeld, Checksums.Crc, Checksums.Concat, DigestsBefore, PackCrcs, Counts;
    CrcsCounted(contents, n - 1);
    if i < n - 1 {
      CrcListed(contents, n - 1, i, j);
    }
  }

  // ----- One folder is acceptable.

  /** The tables know the Copy method, which declares nothing. */
  predicate KnowsCopy(tables: Tables) {
    tables.kindOf([0x00]) == Copy && tables.declarationOf([0x00], []) == NoDictionary
  }

  lemma OnePort()
    ensures
      var counts: seq<nat> := [1];
      Before(counts, 1) == 1 && Owners(counts, 1) == [0]
  {
    var counts: seq<nat> := [1];
    assert Before(counts, 0) == 0 && Owners(counts, 0) == [];
    assert Repeat(0, 1) == [0];
  }

  lemma FolderPorts(size: u64)
    ensures
      var raw := FolderRecord(size);
      PortsOk(raw, 0, [0]) && CoderEdges(raw) == []
  {
    var raw := FolderRecord(size);
    assert InputCounts(raw.coders) == [1] && OutputCounts(raw.coders) == [1];
    OnePort();
  }

  lemma NoEdgesNoCycle()
    ensures !Cyclic([])
  {
    OrderedMeansAcyclic([], 1, [0]);
  }

  lemma FolderAccepted(size: u64, tables: Tables, limits: Limits)
    requires KnowsCopy(tables)
    ensures FolderAcceptable(FolderRecord(size), tables, limits)
    ensures DeclaredRoot(FolderRecord(size)) == OptionalSize(size)
  {
    hide RootOk, PackedOk, Owners;
    var raw := FolderRecord(size);
    FolderPorts(size);
    NoEdgesNoCycle();
    OneRoot(raw, 0);
    assert DictionaryTotal(raw.coders, tables, 1) == 0;
  }

  // ----- One folder is divided into its members.

  lemma {:induction false} KnownIsSum(sizes: seq<Option<u64>>, lengths: seq<u64>, n: nat)
    requires n <= |sizes| && n <= |lengths| && forall j :: 0 <= j < n ==> sizes[j] == Some(lengths[j])
    ensures KnownTotal(sizes, n) == Sum(lengths[..n])
    decreases n
  {
    if n > 0 {
      KnownIsSum(sizes, lengths, n - 1);
      SumAppend(lengths[..n - 1], lengths[n - 1]);
      assert lengths[..n] == lengths[..n - 1] + [lengths[n - 1]];
    }
  }

  /** What the section's lists give folder i. */
  lemma GivenForFolder(contents: seq<seq<Bytes>>, i: nat)
    requires ContentsHeld(contents) && i < |contents|
    ensures
      var members, counts := contents[i], Counts(contents);
      var explicit, start := Some(LaidSizes(contents, |contents|)), ExplicitBefore(Counts(contents), i);
      && Enough(explicit, start, ExplicitOf(|members|))
      && (forall j :: 0 <= j < |members| - 1 ==>
            GivenSizes(|members|, explicit, start)[j] == Some(Lengths(members)[j]))
      && KnownTotal(GivenSizes(|members|, explicit, start), |members| - 1)
           == |Checksums.Concat(members[..|members| - 1])| <= |Checksums.Concat(members)|
  {
    hide Sum, Checksums.Concat, MembersHeld, KnownTotal, LaidSizes, ExplicitBefore;
    var members, n, counts := contents[i], |contents[i]|, Counts(contents);
    var explicit, start := Some(LaidSizes(contents, |contents|)), ExplicitBefore(counts, i);
    HeldAt(contents, i);
    SizesCounted(contents, |contents|);
    NextExplicit(contents, i);
    NeedsWithinTotal(counts, None, i + 1, |contents|);
    var given := GivenSizes(n, explicit, start);
    forall j: nat | j < n - 1 ensures given[j] == Some(Lengths(members)[j]) {
      LengthWithin(members, j);
      SizeListed(contents, |contents|, i, j);
      assert OptionalSize(explicit.value[start + j]) == Some(Lengths(members)[j]);
      assert given[j] == OptionalSize(explicit.value[start + j]);
    }
    KnownIsSum(given, Lengths(members), n - 1);
    ConcatLength(members, n - 1);
    ConcatGrows(members, n - 1);
  }

  lemma NextExplicit(contents: seq<seq<Bytes>>, i: nat)
    requires ContentsHeld(contents) && i < |contents|
    ensures ExplicitBefore(Counts(contents), i + 1)
         == ExplicitBefore(Counts(contents), i) + ExplicitOf(|contents[i]|)
  {
  }

  lemma PartAccepted(contents: seq<seq<Bytes>>, i: nat)
    requires ContentsHeld(contents) && i < |contents|
    ensures
      var substreams := WrittenStreams(contents, 0).substreams;
      PartAcceptable(Some(PackSizes(contents)[i]), substreams, Counts(contents), Some(PackCrcs(contents)), i)
  {
    hide Checksums.Concat, Checksums.Crc, MembersHeld, KnownTotal, LaidSizes, LaidCrcs, ExplicitBefore, GivenSizes;
    HeldAt(contents, i);
    GivenForFolder(contents, i);
    CrcsCounted(contents, |contents|);
    NeedsWithinTotal(Counts(contents), Some(PackCrcs(contents)), i + 1, |contents|);
  }

  lemma RootsStored(contents: seq<seq<Bytes>>, tables: Tables, limits: Limits)
    requires ContentsHeld(contents) && KnowsCopy(tables)
    ensures forall i :: 0 <= i < |contents| ==>
      && FolderAcceptable(FolderRecords(contents)[i], tables, limits)
      && DeclaredRoots(FolderRecords(contents))[i] == Some(PackSizes(contents)[i])
  {
    hide FolderAcceptable, DeclaredRoot, Checksums.Concat, MembersHeld;
    forall i: nat | i < |contents|
      ensures FolderAcceptable(FolderRecords(contents)[i], tables, limits)
      ensures DeclaredRoot(FolderRecords(contents)[i]) == Some(PackSizes(contents)[i])
    {
      HeldAt(contents, i);
      FolderAccepted(PackSizes(contents)[i], tables, limits);
    }
  }

  lemma {:induction false} OneEach(contents: seq<seq<Bytes>>, n: nat)
    requires ContentsHeld(contents) && n <= |contents|
    ensures PackedBefore(FolderRecords(contents), n) == n
    decreases n
  {
    if n > 0 {
      OneEach(contents, n - 1);
    }
  }

  /** The packed streams end before the next header and inside the archive. */
  predicate Room(contents: seq<seq<Bytes>>, position: u64, envelope: Envelope, archive: Bytes)
    requires ContentsHeld(contents)
  {
    var end := envelope.signatureOffset + 32 + position + Sum(PackSizes(contents));
    end <= envelope.nextHeaderOffset && end <= |archive|
  }

  lemma PackAccepted(contents: seq<seq<Bytes>>, position: u64, envelope: Envelope, archive: Bytes)
    requires ContentsHeld(contents) && Room(contents, position, envelope, archive)
    ensures PackAcceptable(WrittenStreams(contents, position).pack.value, envelope, archive)
  {
    hide Checksums.Concat, Checksums.Crc, MembersHeld, PackAcceptable, LaidSizes, LaidCrcs;
    forall i: nat | i < |contents| ensures PackSizes(contents)[i] != 0xffff_ffff_ffff_ffff {
      HeldAt(contents, i);
    }
    PackAcceptedExactly(WrittenStreams(contents, position).pack.value, envelope, archive);
  }

  lemma DivisionAccepted(contents: seq<seq<Bytes>>, position: u64, tables: Tables, limits: Limits)
    requires ContentsHeld(contents) && KnowsCopy(tables)
    requires TotalBefore(Counts(contents), |contents|) <= limits.maxSubstreams
    ensures DivisionAcceptable(DeclaredRoots(FolderRecords(contents)), WrittenStreams(contents, position).substreams,
                               Some(PackCrcs(contents)), limits)
  {
    hide PartAcceptable, DeclaredRoots, FolderRecords, Counts, PackCrcs, PackSizes, LaidSizes, LaidCrcs,
         TotalBefore, MembersHeld, FolderAcceptable;
    RootsStored(contents, tables, limits);
    SizesCounted(contents, |contents|);
    CrcsCounted(contents, |contents|);
    forall i: nat | i < |contents|
      ensures PartAcceptable(DeclaredRoots(FolderRecords(contents))[i], WrittenStreams(contents, position).substreams,
                             Counts(contents), Some(PackCrcs(contents)), i)
    {
      PartAccepted(contents, i);
    }
  }

  /** The section is accepted, wherever its packed streams stand. */
  lemma StreamsAccepted(contents: seq<seq<Bytes>>, position: u64, envelope: Envelope, archive: Bytes, tables: Tables,
                        limits: Limits)
    requires ContentsHeld(contents) && KnowsCopy(tables) && Room(contents, position, envelope, archive)
    requires TotalBefore(Counts(contents), |contents|) <= limits.maxSubstreams
    ensures SectionAcceptable(WrittenStreams(contents, position), envelope, archive, tables, limits)
  {
    hide PackAcceptable, DivisionAcceptable, FolderAcceptable, DeclaredRoots, Counts, PackCrcs, LaidSizes, LaidCrcs,
         MembersHeld, Room, TotalBefore, PackedBefore;
    PackAccepted(contents, position, envelope, archive);
    DivisionAccepted(contents, position, tables, limits);
    RootsStored(contents, tables, limits);
    OneEach(contents, |contents|);
  }
}
