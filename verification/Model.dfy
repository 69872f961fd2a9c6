/** Records of the 7z next header: as parsed, and as validated. */
module Model {
  import opened Support

  datatype RawCoder = RawCoder(methodId: Bytes, inputs: u64, outputs: u64, properties: Bytes)

  datatype BindPair = BindPair(input: u64, output: u64)

  datatype RawFolder = RawFolder(
    coders: seq<RawCoder>,
    inputStreams: u64,
    outputStreams: u64,
    bindPairs: seq<BindPair>,
    packedStreams: u64,
    packedIndices: Option<seq<u64>>,
    unpackSizes: seq<u64>)

  datatype ValidatedGraph = ValidatedGraph(
    bindPairs: seq<BindPair>,
    packedInputs: seq<u64>,
    rootOutput: nat,
    order: seq<nat>)

  datatype RawPackInfo = RawPackInfo(
    position: u64,
    streams: u64,
    sizes: Option<seq<u64>>,
    crcs: Option<seq<Option<bv32>>>)

  datatype RawUnpackInfo = RawUnpackInfo(folders: seq<RawFolder>, crcs: Option<seq<Option<bv32>>>)

  datatype RawSubstreams = RawSubstreams(
    counts: seq<u64>,
    explicitSizes: Option<seq<u64>>,
    crcs: Option<seq<Option<bv32>>>)

  datatype RawStreamsInfo = RawStreamsInfo(
    pack: Option<RawPackInfo>,
    unpack: Option<RawUnpackInfo>,
    substreams: Option<RawSubstreams>)

  /** Lengths of stored data fit the machine's words. */
  predicate StoredCoder(c: RawCoder) {
    |c.methodId| <= U64_MAX && |c.properties| <= U64_MAX
  }

  predicate Stored(raw: RawFolder) {
    |raw.coders| <= U64_MAX && forall c :: c in raw.coders ==> StoredCoder(c)
  }

  predicate StoredStreams(raw: RawStreamsInfo) {
    raw.unpack.Some? ==> |raw.unpack.value.folders| <= U64_MAX && forall f :: f in raw.unpack.value.folders ==>
      Stored(f)
  }

  function Sum(values: seq<u64>): nat {
    if |values| == 0 then 0 else values[0] + Sum(values[1..])
  }

  lemma {:induction false} SumAppend(values: seq<u64>, last: u64)
    ensures Sum(values + [last]) == Sum(values) + last
    decreases |values|
  {
    if |values| == 0 {
      assert values + [last] == [last];
    } else {
      SumAppend(values[1..], last);
      assert (values + [last])[1..] == values[1..] + [last];
    }
  }

  /** The CRC a header gives for item i, if it gives any. */
  function CrcFor(crcs: Option<seq<Option<bv32>>>, i: nat): Option<bv32> {
    if crcs.Some? && i < |crcs.value| then crcs.value[i] else None
  }

  function InputCounts(coders: seq<RawCoder>): seq<nat> {
    seq(|coders|, i requires 0 <= i < |coders| => coders[i].inputs)
  }

  function OutputCounts(coders: seq<RawCoder>): seq<nat> {
    seq(|coders|, i requires 0 <= i < |coders| => coders[i].outputs)
  }
}
