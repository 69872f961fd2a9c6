/** An opened archive, and random access to one of its members. */
module Archives {
  import opened Support
  import opened Folders
  import opened Evaluation
  import opened Execution
  import opened FileMapping
  import opened Slicing
  import opened Sinks
  import Checksums
  import HeaderValidation
  import Graph

  datatype Archive = Archive(
    bytes: Bytes,
    streams: Option<StreamsInfo>,
    entries: seq<FileEntry>,
    limits: Limits,
    codec: CodecFn)

  // ----- What validation guarantees.

  function Streamless(entries: seq<FileEntry>): (flags: seq<bool>)
    ensures |flags| == |entries|
  {
    seq(|entries|, x requires 0 <= x < |entries| => entries[x].stream.None?)
  }

  ghost predicate FoldersReady(a: Archive) {
    a.streams.Some? ==> forall f :: f in a.streams.value.folders ==>
      ValidFolder(f) && AllAvailable(a.bytes, a.streams.value.packStreams, f)
  }

  /** The k-th entry with a stream has the k-th substream, and all are used. (A header
      without a file list has no entries, whatever its streams.) */
  predicate Mapped(a: Archive) {
    var flags := Streamless(a.entries);
    && (|flags| > 0 ==> StreamIndex(flags, |flags|) == |AllStreams(a.streams)|)
    && forall x :: 0 <= x < |flags| && !flags[x] ==>
         && !a.entries[x].isAnti
         && StreamIndex(flags, x) < |AllStreams(a.streams)|
         && a.entries[x].stream == Some(AllStreams(a.streams)[StreamIndex(flags, x)])
  }

  ghost predicate ValidArchive(a: Archive) {
    |a.bytes| <= U64_MAX && FoldersReady(a) && Mapped(a)
  }

  function FolderAt(a: Archive, i: nat): Folder
    requires a.streams.Some? && i < |a.streams.value.folders|
  {
    a.streams.value.folders[i]
  }

  predicate HasFolder(a: Archive, i: nat) {
    a.streams.Some? && i < |a.streams.value.folders|
  }

  lemma FolderIsReady(a: Archive, i: nat)
    requires ValidArchive(a) && HasFolder(a, i)
    ensures ValidFolder(FolderAt(a, i)) && AllAvailable(a.bytes, a.streams.value.packStreams, FolderAt(a, i))
    ensures FolderAt(a, i).rootOutput < |FolderAt(a, i).unpackSizes|
  {
    hide Mapped, AllAvailable, Graph.BindsOk, Graph.PackedOk, Numbered;
    assert FolderAt(a, i) in a.streams.value.folders;
  }

  lemma EntryMapping(a: Archive, x: nat)
    requires Mapped(a) && x < |a.entries| && a.entries[x].stream.Some?
    ensures StreamIndex(Streamless(a.entries), x) < |AllStreams(a.streams)| && !a.entries[x].isAnti
    ensures a.entries[x].stream.value == AllStreams(a.streams)[StreamIndex(Streamless(a.entries), x)]
  {
    hide AllStreams, StreamIndex;
    assert !Streamless(a.entries)[x];
  }

  /** An entry's mapping names an existing substream, and repeats its size and CRC. */
  lemma EntryPlace(a: Archive, x: nat)
    requires ValidArchive(a) && x < |a.entries| && a.entries[x].stream.Some?
    ensures
      var m := a.entries[x].stream.value;
      && HasFolder(a, m.folder) && m.substream < |FolderAt(a, m.folder).substreams|
      && m == StreamOf(a.streams.value.folders, m.folder, m.substream) && !a.entries[x].isAnti
    ensures
      var m := a.entries[x].stream.value;
      HeaderValidation.SubstreamsBefore(a.streams.value.folders, m.folder) + m.substream
        == StreamIndex(Streamless(a.entries), x)
  {
    hide FoldersReady, Mappings, Mapped, StreamIndex, HeaderValidation.SubstreamsBefore;
    EntryMapping(a, x);
    var k := StreamIndex(Streamless(a.entries), x);
    var folders := a.streams.value.folders;
    var i, j := MappingFrom(folders, |folders|, k);
    MappingAt(folders, |folders|, i, j);
  }

  // ----- The meaning of random access, with room for `remaining` bytes of output.

  function MaxEntry(a: Archive): nat {
    a.limits.maxEntryOutputBytes
  }

  function Cap(a: Archive, i: nat, remaining: nat): nat
    requires HasFolder(a, i)
  {
    DecodeMaximum(SizesOf(FolderAt(a, i)), MaxEntry(a), remaining)
  }

  ghost predicate Permits(a: Archive, i: nat, remaining: nat)
    requires HasFolder(a, i)
  {
    var f := FolderAt(a, i);
    && Decodable(SizesOf(f), RootSize(f), MaxEntry(a), remaining)
    && Admitted(f, a.limits, Cap(a, i, remaining))
    && AllIntact(a.bytes, a.streams.value.packStreams, f)
  }

  /** The decoded folder, if decoding it is permitted and succeeds. */
  ghost function WholeFolder(a: Archive, i: nat, remaining: nat): Option<Bytes>
    requires ValidArchive(a)
  {
    if HasFolder(a, i) && Permits(a, i, remaining) then
      FolderIsReady(a, i);
      var f := FolderAt(a, i);
      var env := EnvOf(a.bytes, a.streams.value.packStreams, f, a.codec, Cap(a, i, remaining), a.limits);
      AdmittedIsSound(f, a.limits, Cap(a, i, remaining), env);
      EvalRoot(env)
    else None
  }

  /** Bytes [start, end) of a decoded folder. */
  datatype Cut = Cut(whole: Bytes, start: nat, end: nat)

  function CutOf(f: Folder, j: nat, whole: Bytes, maxEntry: nat): (c: Option<Cut>)
    ensures c.Some? ==> c.value.start <= c.value.end <= |c.value.whole|
  {
    var sizes := SizesOf(f);
    if Cuttable(sizes, j, |whole|) && Offset(sizes, j + 1, |whole|) - Offset(sizes, j, |whole|) <= maxEntry then
      Some(Cut(whole, Offset(sizes, j, |whole|), Offset(sizes, j + 1, |whole|)))
    else None
  }

  ghost function Opening(a: Archive, x: nat): (c: Option<Cut>)
    requires ValidArchive(a)
    ensures c.Some? ==> x < |a.entries| && c.value.start <= c.value.end <= |c.value.whole|
  {
    OpeningWithin(a, x, a.limits.maxTotalOutputBytes)
  }

  ghost function OpeningWithin(a: Archive, x: nat, remaining: nat): (c: Option<Cut>)
    requires ValidArchive(a)
    ensures c.Some? ==> x < |a.entries| && c.value.start <= c.value.end <= |c.value.whole|
  {
    if x >= |a.entries| || a.entries[x].isAnti then None
    else if a.entries[x].stream.None? then (if a.entries[x].isEmptyFile then Some(Cut([], 0, 0)) else None)
    else
      EntryPlace(a, x);
      var m := a.entries[x].stream.value;
      var whole := WholeFolder(a, m.folder, remaining);
      if whole.None? then None else CutOf(FolderAt(a, m.folder), m.substream, whole.value, MaxEntry(a))
  }

  function MemberCrc(a: Archive, x: nat): Option<bv32>
    requires x < |a.entries|
  {
    if a.entries[x].stream.Some? then a.entries[x].stream.value.crc else None
  }

  ghost predicate FolderFits(a: Archive, x: nat, whole: Bytes)
    requires ValidArchive(a) && x < |a.entries|
  {
    if a.entries[x].stream.None? then true
    else
      EntryPlace(a, x);
      CrcFits(whole, FolderAt(a, a.entries[x].stream.value.folder).crc)
  }

  /** What extracting entry x delivers: its bytes, when all checksums fit. */
  ghost function ExtractedWithin(a: Archive, x: nat, remaining: nat): Option<Bytes>
    requires ValidArchive(a)
  {
    var c := OpeningWithin(a, x, remaining);
    if c.None? then None
    else
      var bytes := c.value.whole[c.value.start..c.value.end];
      if CrcFits(bytes, MemberCrc(a, x)) && FolderFits(a, x, c.value.whole) then Some(bytes) else None
  }

  ghost function Extracted(a: Archive, x: nat): Option<Bytes>
    requires ValidArchive(a)
  {
    ExtractedWithin(a, x, a.limits.maxTotalOutputBytes)
  }

  // ----- Room for more output changes nothing.

  lemma DecodedWithMoreRoom(a: Archive, i: nat, low: nat, high: nat)
    requires ValidArchive(a) && Monotone(a.codec) && low <= high && WholeFolder(a, i, low).Some?
    ensures WholeFolder(a, i, high) == WholeFolder(a, i, low)
  {
    hide ValidArchive, Decodable, DecodeMaximum, AllIntact, AllAvailable, Sound, EvalRoot, Monotone;
    hide ValidateRegistration;
    FolderIsReady(a, i);
    var f := FolderAt(a, i);
    MoreRoom(SizesOf(f), RootSize(f), MaxEntry(a), low, high);
    var env := EnvOf(a.bytes, a.streams.value.packStreams, f, a.codec, Cap(a, i, low), a.limits);
    AdmittedIsSound(f, a.limits, Cap(a, i, low), env);
    LargerCap(env, Cap(a, i, high));
  }

  lemma ExtractedWithMoreRoom(a: Archive, x: nat, low: nat, high: nat)
    requires ValidArchive(a) && Monotone(a.codec) && low <= high && ExtractedWithin(a, x, low).Some?
    ensures ExtractedWithin(a, x, high) == ExtractedWithin(a, x, low)
  {
    hide ValidArchive, WholeFolder, Monotone, CutOf;
    if a.entries[x].stream.Some? {
      DecodedWithMoreRoom(a, a.entries[x].stream.value.folder, low, high);
    }
  }

  // ----- The members of a folder.

  /** A decoded folder has its declared size. */
  lemma DecodedSize(a: Archive, i: nat, remaining: nat)
    requires ValidArchive(a) && WholeFolder(a, i, remaining).Some?
    ensures HasFolder(a, i) && Decodable(SizesOf(FolderAt(a, i)), RootSize(FolderAt(a, i)), MaxEntry(a), remaining)
    ensures RootSize(FolderAt(a, i)).Some? ==> |WholeFolder(a, i, remaining).value| == RootSize(FolderAt(a, i)).value
  {
    hide ValidArchive, Decodable, AllIntact, AllAvailable, Admitted;
    FolderIsReady(a, i);
    var f := FolderAt(a, i);
    var env := EnvOf(a.bytes, a.streams.value.packStreams, f, a.codec, Cap(a, i, remaining), a.limits);
    AdmittedIsSound(f, a.limits, Cap(a, i, remaining), env);
    RootSizeKept(env);
  }

  lemma RootSizeKept(env: Env)
    requires Sound(env) && EvalRoot(env).Some?
    ensures RootSize(env.f).Some? ==> |EvalRoot(env).value| == RootSize(env.f).value
  {
    hide ValidFolder, SingleOutputs, Listed, EvalInputs;
    OutputsAreCoders(env.f);
  }

  function Pieces(sizes: seq<Option<u64>>, whole: Bytes, k: nat): (pieces: seq<Bytes>)
    requires k <= |sizes| && forall j :: 0 <= j < k ==> Cuttable(sizes, j, |whole|)
    ensures |pieces| == k
  {
    seq(k, j requires 0 <= j < k => assert Cuttable(sizes, j, |whole|); whole[Offset(sizes, j, |whole|)..Offset(sizes, j + 1, |whole|)])
  }

  lemma {:induction false} PiecesConcat(sizes: seq<Option<u64>>, whole: Bytes, k: nat)
    requires k <= |sizes| && forall j :: 0 <= j < k ==> Cuttable(sizes, j, |whole|)
    ensures Offset(sizes, k, |whole|) <= |whole|
      && Checksums.Concat(Pieces(sizes, whole, k)) == whole[..Offset(sizes, k, |whole|)]
    decreases k
  {
    if k > 0 {
      PiecesConcat(sizes, whole, k - 1);
      assert Cuttable(sizes, k - 1, |whole|);
      assert Pieces(sizes, whole, k)[..k - 1] == Pieces(sizes, whole, k - 1);
    }
  }

  /** When every member of a folder can be extracted, the members concatenate to the
      whole decoded folder. */
  lemma MembersFillFolder(a: Archive, i: nat, xs: seq<nat>)
    requires ValidArchive(a) && HasFolder(a, i) && |xs| == |FolderAt(a, i).substreams| > 0
    requires forall j :: 0 <= j < |xs| ==> IsMember(a, xs[j], i, j) && Extracted(a, xs[j]).Some?
    ensures WholeFolder(a, i, a.limits.maxTotalOutputBytes).Some?
    ensures Checksums.Concat(seq(|xs|, j requires 0 <= j < |xs| => ExtractedBytes(a, xs[j])))
      == WholeFolder(a, i, a.limits.maxTotalOutputBytes).value
  {
    hide ValidArchive, WholeFolder, Cuttable, FolderFits;
    var f, max := FolderAt(a, i), a.limits.maxTotalOutputBytes;
    assert IsMember(a, xs[0], i, 0);
    var whole := WholeFolder(a, i, max).value;
    var sizes := SizesOf(f);
    forall j | 0 <= j < |xs|
      ensures Cuttable(sizes, j, |whole|)
      ensures ExtractedBytes(a, xs[j]) == whole[Offset(sizes, j, |whole|)..Offset(sizes, j + 1, |whole|)]
    {
      assert IsMember(a, xs[j], i, j);
    }
    assert seq(|xs|, j requires 0 <= j < |xs| => ExtractedBytes(a, xs[j])) == Pieces(sizes, whole, |xs|);
    PiecesConcat(sizes, whole, |xs|);
    DecodedSize(a, i, max);
    MembersEndWithFolder(sizes, RootSize(f), MaxEntry(a), max, |whole|);
    assert whole[..|whole|] == whole;
  }

  predicate IsMember(a: Archive, x: nat, i: nat, j: nat) {
    x < |a.entries| && a.entries[x].stream.Some? && a.entries[x].stream.value.folder == i
      && a.entries[x].stream.value.substream == j
  }

  ghost function ExtractedBytes(a: Archive, x: nat): Bytes
    requires ValidArchive(a)
  {
    if Extracted(a, x).Some? then Extracted(a, x).value else []
  }
}
