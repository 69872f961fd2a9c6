/** Validated folders: coders with their ports, and how the ports are connected. */
module Folders {
  import opened Support
  import opened Model
  import opened Scheduling
  import opened Graph

  datatype Method =
    | Copy | Delta | Lzma | Lzma2 | Ppmd | Bcj | Bcj2 | Ppc | Arm | ArmThumb | Arm64 | Sparc | Ia64
    | RiscV | Swap2 | Swap4 | Deflate | Deflate64 | Bzip2 | Brotli | Lz4 | Zstd | Aes
    | Unregistered

  datatype Coder = Coder(
    kind: Method,
    inputStart: nat,
    inputCount: nat,
    outputStart: nat,
    outputCount: nat,
    properties: Bytes)

  datatype Substream = Substream(size: Option<u64>, crc: Option<bv32>)

  datatype Folder = Folder(
    coders: seq<Coder>,
    bindPairs: seq<BindPair>,
    packedInputs: seq<u64>,
    unpackSizes: seq<Option<u64>>,
    rootOutput: nat,
    order: seq<nat>,
    crc: Option<bv32>,
    substreams: seq<Substream>,
    dictionaryBytes: nat,
    firstPackStream: nat)

  datatype PackStream = PackStream(offset: nat, size: Option<u64>, crc: Option<bv32>)

  datatype StreamsInfo = StreamsInfo(
    packPosition: nat,
    packStreams: seq<PackStream>,
    folders: seq<Folder>,
    substreamCount: nat)

  /** The declared size of the root output. */
  function RootSize(f: Folder): Option<u64> {
    if f.rootOutput < |f.unpackSizes| then f.unpackSizes[f.rootOutput] else None
  }

  function SizesOf(f: Folder): (sizes: seq<Option<u64>>)
    ensures |sizes| == |f.substreams|
  {
    seq(|f.substreams|, i requires 0 <= i < |f.substreams| => f.substreams[i].size)
  }

  predicate AllKnown(sizes: seq<Option<u64>>) {
    forall i :: 0 <= i < |sizes| ==> sizes[i].Some?
  }

  function InCounts(coders: seq<Coder>): seq<nat> {
    seq(|coders|, i requires 0 <= i < |coders| => coders[i].inputCount)
  }

  function OutCounts(coders: seq<Coder>): seq<nat> {
    seq(|coders|, i requires 0 <= i < |coders| => coders[i].outputCount)
  }

  function InputTotal(f: Folder): nat {
    Before(InCounts(f.coders), |f.coders|)
  }

  function OutputTotal(f: Folder): nat {
    Before(OutCounts(f.coders), |f.coders|)
  }

  function InputOwners(f: Folder): seq<nat> {
    Owners(InCounts(f.coders), |f.coders|)
  }

  function OutputOwners(f: Folder): seq<nat> {
    Owners(OutCounts(f.coders), |f.coders|)
  }

  predicate Numbered(coders: seq<Coder>) {
    forall i :: 0 <= i < |coders| ==>
      coders[i].inputStart == Before(InCounts(coders), i) && coders[i].outputStart == Before(OutCounts(coders), i)
  }

  /** What validation guarantees of every folder it lets through. */
  ghost predicate ValidFolder(f: Folder) {
    && Numbered(f.coders)
    && BindsOk(f.bindPairs, InputTotal(f), OutputTotal(f))
    && RootOk(f.bindPairs, OutputTotal(f), f.rootOutput)
    && PackedOk(f.bindPairs, InputTotal(f), f.packedInputs)
    && |f.unpackSizes| == OutputTotal(f)
    && PortsInRange(f.bindPairs, InputOwners(f), OutputOwners(f))
    && Topological(EdgesOf(f.bindPairs, InputOwners(f), OutputOwners(f)), |f.coders|, f.order)
  }

  predicate SingleOutputs(f: Folder) {
    forall c :: c in f.coders ==> c.outputCount == 1
  }

  // ----- With single outputs, output ports and coders coincide.

  lemma {:induction false} OnePortEach(counts: seq<nat>, k: nat)
    requires k <= |counts| && forall i :: 0 <= i < |counts| ==> counts[i] == 1
    ensures Before(counts, k) == k
    ensures forall o :: 0 <= o < k ==> Owners(counts, k)[o] == o
    decreases k
  {
    if k > 0 {
      OnePortEach(counts, k - 1);
    }
  }

  lemma OutputsAreCoders(f: Folder)
    requires SingleOutputs(f)
    ensures OutputTotal(f) == |f.coders|
    ensures forall o :: 0 <= o < |f.coders| ==> OutputOwners(f)[o] == o
    ensures Numbered(f.coders) ==> forall i :: 0 <= i < |f.coders| ==> f.coders[i].outputStart == i
  {
    var counts := OutCounts(f.coders);
    forall i | 0 <= i < |counts| ensures counts[i] == 1 {
      assert f.coders[i] in f.coders;
    }
    OnePortEach(counts, |f.coders|);
    forall i | 0 <= i < |f.coders| ensures Before(counts, i) == i {
      OnePortEach(counts, i);
    }
  }

  // ----- Where an input comes from, and where an output goes.

  /** The output bound to input i, if any. */
  function SourceOf(binds: seq<BindPair>, i: nat): (r: Option<nat>)
    ensures r.Some? ==> exists b :: b in binds && b.input == i && b.output == r.value
    ensures r.None? ==> forall b :: b in binds ==> b.input != i
  {
    if |binds| == 0 then None
    else if binds[0].input == i then Some(binds[0].output)
    else SourceOf(binds[1..], i)
  }

  /** The input output o is bound to, if any. */
  function DestinationOf(binds: seq<BindPair>, o: nat): (r: Option<nat>)
    ensures r.Some? ==> exists b :: b in binds && b.output == o && b.input == r.value
    ensures r.None? ==> forall b :: b in binds ==> b.output != o
  {
    if |binds| == 0 then None
    else if binds[0].output == o then Some(binds[0].input)
    else DestinationOf(binds[1..], o)
  }

  lemma BindingsMatch(binds: seq<BindPair>, inputs: nat, outputs: nat, i: nat, o: nat)
    requires BindsOk(binds, inputs, outputs)
    ensures SourceOf(binds, i) == Some(o) <==> DestinationOf(binds, o) == Some(i)
    ensures SourceOf(binds, i) == Some(o) <==> exists b :: b in binds && b.input == i && b.output == o
  {
    forall a, b | a in binds && b in binds
      ensures (a.input == b.input <==> a == b) && (a.output == b.output <==> a == b) {
      var j :| 0 <= j < |binds| && binds[j] == a;
      var k :| 0 <= k < |binds| && binds[k] == b;
    }
  }

  /** Position of a coder in the schedule. */
  function Position(order: seq<nat>, c: nat): (p: nat)
    requires c in order
    ensures p < |order| && order[p] == c
  {
    if order[0] == c then 0 else 1 + Position(order[1..], c)
  }

  lemma PositionUnique(order: seq<nat>, p: nat)
    requires Distinct(order) && p < |order|
    ensures Position(order, order[p]) == p
  {
  }

  predicate Listed(f: Folder) {
    forall c: nat :: c < |f.coders| ==> c in f.order
  }

  lemma AllListed(f: Folder)
    requires ValidFolder(f)
    ensures Listed(f) && Distinct(f.order) && |f.order| == |f.coders| && forall c :: c in f.order ==> c < |f.coders|
  {
    forall c: nat | c < |f.coders| ensures c in f.order {
      EveryCoderListed(f.order, |f.coders|, c);
    }
  }

  /** A binding runs from an earlier coder of the schedule to a later one. */
  lemma SourceEarlier(f: Folder, i: nat, o: nat)
    requires ValidFolder(f) && SingleOutputs(f) && SourceOf(f.bindPairs, i) == Some(o)
    ensures i < InputTotal(f) && o < |f.coders| && Listed(f)
    ensures InputOwners(f)[i] < |f.coders| && Position(f.order, o) < Position(f.order, InputOwners(f)[i])
  {
    AllListed(f);
    OutputsAreCoders(f);
    var b :| b in f.bindPairs && b.input == i && b.output == o;
    var k :| 0 <= k < |f.bindPairs| && f.bindPairs[k] == b;
    var edges := EdgesOf(f.bindPairs, InputOwners(f), OutputOwners(f));
    var d := InputOwners(f)[i];
    assert d in InputOwners(f);
    assert edges[k] == Edge(o, d);
    var p := Position(f.order, d);
    assert o in f.order[..p];
    var q :| 0 <= q < p && f.order[q] == o;
    PositionUnique(f.order, q);
  }
}
