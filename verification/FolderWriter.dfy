/** The folder record as the seed builder writes it, and the round trip through
    the parser. */
module FolderWriter {
  import opened Support
  import opened Sequences
  import opened Bounded
  import opened Model
  import opened Reading
  import opened FolderSyntax

  datatype SeedCoder = SeedCoder(methodId: Bytes, inputs: u64, outputs: u64, properties: Option<Bytes>)

  function RawOf(c: SeedCoder): RawCoder {
    RawCoder(c.methodId, c.inputs, c.outputs, if c.properties.Some? then c.properties.value else [])
  }

  // ----- What a record can hold, and what the builder insists on besides.

  predicate CoderEncodable(c: SeedCoder) {
    1 <= |c.methodId| <= 0x0f && (c.properties.Some? ==> |c.properties.value| <= U64_MAX)
  }

  predicate CoderWritable(c: SeedCoder): (writable: bool)
    ensures writable ==> CoderEncodable(c)
  {
    CoderEncodable(c) && (c.properties.Some? ==> |c.properties.value| < 0x80)
  }

  function InputSum(coders: seq<SeedCoder>): nat {
    if |coders| == 0 then 0 else InputSum(coders[..|coders| - 1]) + coders[|coders| - 1].inputs
  }

  function OutputSum(coders: seq<SeedCoder>): nat {
    if |coders| == 0 then 0 else OutputSum(coders[..|coders| - 1]) + coders[|coders| - 1].outputs
  }

  predicate Writable(coders: seq<SeedCoder>, bindings: seq<BindPair>, packed: seq<u64>): (writable: bool)
    ensures writable ==> Encodable(coders, bindings, packed)
  {
    Encodable(coders, bindings, packed) && forall c :: c in coders ==> CoderWritable(c)
  }

  predicate Encodable(coders: seq<SeedCoder>, bindings: seq<BindPair>, packed: seq<u64>) {
    && 0 < |coders| <= U64_MAX
    && (forall c :: c in coders ==> CoderEncodable(c))
    && InputSum(coders) <= U64_MAX && 0 < OutputSum(coders) <= U64_MAX
    && |bindings| == OutputSum(coders) - 1
    && |packed| > 0 && InputSum(coders) == |bindings| + |packed|
  }

  // ----- The record.

  predicate ExplicitPorts(c: SeedCoder) {
    c.inputs != 1 || c.outputs != 1
  }

  function Flags(c: SeedCoder): u8
    requires CoderEncodable(c)
  {
    |c.methodId| + (if ExplicitPorts(c) then 0x10 else 0) + if c.properties.Some? then 0x20 else 0
  }

  function PortsRecord(c: SeedCoder): Bytes {
    if ExplicitPorts(c) then EncodeUint(c.inputs) + EncodeUint(c.outputs) else []
  }

  function PropertiesRecord(c: SeedCoder): Bytes
    requires CoderEncodable(c)
  {
    if c.properties.Some? then EncodeUint(|c.properties.value|) + c.properties.value else []
  }

  function CoderRecord(c: SeedCoder): Bytes
    requires CoderEncodable(c)
  {
    [Flags(c)] + (c.methodId + (PortsRecord(c) + PropertiesRecord(c)))
  }

  function CoderRecords(coders: seq<SeedCoder>): Bytes
    requires forall c :: c in coders ==> CoderEncodable(c)
  {
    if |coders| == 0 then []
    else CoderRecords(coders[..|coders| - 1]) + CoderRecord(coders[|coders| - 1])
  }

  function BindRecords(bindings: seq<BindPair>): Bytes {
    if |bindings| == 0 then []
    else
      var last := bindings[|bindings| - 1];
      BindRecords(bindings[..|bindings| - 1]) + (EncodeUint(last.input) + EncodeUint(last.output))
  }

  function UintRecords(values: seq<u64>): Bytes {
    if |values| == 0 then [] else UintRecords(values[..|values| - 1]) + EncodeUint(values[|values| - 1])
  }

  function FolderRecord(coders: seq<SeedCoder>, bindings: seq<BindPair>, packed: seq<u64>): Bytes
    requires Encodable(coders, bindings, packed)
  {
    EncodeUint(|coders|) + (CoderRecords(coders)
                            + (BindRecords(bindings) + if |packed| == 1 then [] else UintRecords(packed)))
  }

  // ----- Reading it back. The builder writes port counts it is given; the parser
  // refuses a coder without inputs or without outputs.

  predicate HasPorts(c: SeedCoder) {
    c.inputs > 0 && c.outputs > 0
  }

  predicate PortsNonzero(coders: seq<SeedCoder>) {
    forall c :: c in coders ==> HasPorts(c)
  }

  lemma PortsRoundTrip(bytes: Bytes, p: nat, c: SeedCoder)
    requires p <= |bytes| && At(bytes, p, PortsRecord(c))
    ensures PortCountsAt(bytes, p, ExplicitPorts(c)) ==
      if HasPorts(c) then Success(Parsed((c.inputs, c.outputs), p + |PortsRecord(c)|))
      else Failure(Format(ZeroStreamCount))
  {
    hide EncodeUint, UintAt;
    if ExplicitPorts(c) {
      AtConcat(bytes, p, EncodeUint(c.inputs), EncodeUint(c.outputs));
      UintRoundTrip(bytes, p, c.inputs);
      UintRoundTrip(bytes, p + |EncodeUint(c.inputs)|, c.outputs);
    }
  }

  lemma PropertiesRoundTrip(bytes: Bytes, p: nat, c: SeedCoder, maximum: nat)
    requires p <= |bytes| && CoderEncodable(c) && At(bytes, p, PropertiesRecord(c))
    requires |RawOf(c).properties| <= maximum
    ensures PropertiesAt(bytes, p, c.properties.Some?, maximum)
         == Success(Parsed(RawOf(c).properties, p + |PropertiesRecord(c)|))
  {
    hide EncodeUint, UintAt;
    if c.properties.Some? {
      var length := EncodeUint(|c.properties.value|);
      AtConcat(bytes, p, length, c.properties.value);
      UintRoundTrip(bytes, p, |c.properties.value|);
    }
  }

  lemma FlagsRead(c: SeedCoder)
    requires CoderEncodable(c)
    ensures !Flag(Flags(c), 0x80) && !Flag(Flags(c), 0x40)
    ensures Flags(c) % 0x10 == |c.methodId|
    ensures Flag(Flags(c), 0x10) == ExplicitPorts(c)
    ensures Flag(Flags(c), 0x20) == c.properties.Some?
  {
  }

  lemma CoderRoundTrip(bytes: Bytes, p: nat, c: SeedCoder, maximum: nat)
    requires p <= |bytes| && CoderEncodable(c) && At(bytes, p, CoderRecord(c))
    requires |RawOf(c).properties| <= maximum
    ensures CoderAt(bytes, p, maximum) ==
      if HasPorts(c) then Success(Parsed(RawOf(c), p + |CoderRecord(c)|)) else Failure(Format(ZeroStreamCount))
  {
    hide HasPorts, Flags, Flag, PortsRecord, PropertiesRecord, PortCountsAt, PropertiesAt, EncodeUint, ExplicitPorts;
    AtConcat(bytes, p, [Flags(c)], c.methodId + (PortsRecord(c) + PropertiesRecord(c)));
    AtOne(bytes, p, Flags(c));
    AtConcat(bytes, p + 1, c.methodId, PortsRecord(c) + PropertiesRecord(c));
    var ports := p + 1 + |c.methodId|;
    AtConcat(bytes, ports, PortsRecord(c), PropertiesRecord(c));
    FlagsRead(c);
    PortsRoundTrip(bytes, ports, c);
    PropertiesRoundTrip(bytes, ports + |PortsRecord(c)|, c, maximum);
  }

  function RawAll(coders: seq<SeedCoder>): seq<RawCoder> {
    seq(|coders|, i requires 0 <= i < |coders| => RawOf(coders[i]))
  }

  predicate Readable(coders: seq<SeedCoder>, maximum: nat) {
    forall c :: c in coders ==> CoderEncodable(c) && |RawOf(c).properties| <= maximum
  }

  lemma NoCoders(bytes: Bytes, p: nat, maximum: nat)
    requires p <= |bytes|
    ensures CodersAt(bytes, p, 0, maximum) == Success(Parsed(CoderRun([], 0, 0), p)) && CoderRecords([]) == []
      && RawAll([]) == []
    ensures PortsNonzero([])
  {
  }

  lemma CodersStep(bytes: Bytes, p: nat, count: nat, maximum: nat, before: CoderRun, middle: nat, coder: RawCoder,
                   end: nat)
    requires 0 < count && p <= middle <= |bytes|
    requires CodersAt(bytes, p, count - 1, maximum) == Success(Parsed(before, middle))
    requires CoderAt(bytes, middle, maximum) == Success(Parsed(coder, end))
    requires before.inputs + coder.inputs <= U64_MAX && before.outputs + coder.outputs <= U64_MAX
    ensures CodersAt(bytes, p, count, maximum)
      == Success(Parsed(CoderRun(before.coders + [coder], before.inputs + coder.inputs, before.outputs + coder.outputs), end))
  {
    hide CoderAt;
  }

  lemma LastCoder(coders: seq<SeedCoder>, maximum: nat)
    requires |coders| > 0 && Readable(coders, maximum)
    ensures
      var before, last := coders[..|coders| - 1], coders[|coders| - 1];
      && Readable(before, maximum) && CoderEncodable(last) && |RawOf(last).properties| <= maximum
      && (PortsNonzero(coders) <==> PortsNonzero(before) && HasPorts(last))
      && CoderRecords(coders) == CoderRecords(before) + CoderRecord(last)
      && RawAll(coders) == RawAll(before) + [RawOf(last)]
  {
    hide CoderRecord, CoderEncodable, HasPorts;
    assert coders == coders[..|coders| - 1] + [coders[|coders| - 1]];
  }

  lemma CodersStop(bytes: Bytes, p: nat, count: nat, maximum: nat)
    requires p <= |bytes| && 0 < count
    ensures
      var before := CodersAt(bytes, p, count - 1, maximum);
      && (before.Failure? ==> CodersAt(bytes, p, count, maximum) == before)
      && (before.Success? ==>
            var coder := CoderAt(bytes, before.value.end, maximum);
            coder.Failure? ==> CodersAt(bytes, p, count, maximum) == Failure(coder.error))
  {
    hide CoderAt;
  }

  lemma {:induction false} CodersRoundTrip(bytes: Bytes, p: nat, coders: seq<SeedCoder>, maximum: nat)
    requires p <= |bytes| && Readable(coders, maximum)
    requires InputSum(coders) <= U64_MAX && OutputSum(coders) <= U64_MAX
    requires At(bytes, p, CoderRecords(coders))
    ensures CodersAt(bytes, p, |coders|, maximum) ==
      if PortsNonzero(coders) then
        Success(Parsed(CoderRun(RawAll(coders), InputSum(coders), OutputSum(coders)), p + |CoderRecords(coders)|))
      else Failure(Format(ZeroStreamCount))
    decreases |coders|
  {
    hide PortsNonzero, HasPorts, CoderAt, CodersAt, CoderRecord, CoderRecords, CoderEncodable, At, RawAll;
    if |coders| == 0 {
      NoCoders(bytes, p, maximum);
      assert coders == [];
    } else {
      LastCoder(coders, maximum);
      var n := |coders| - 1;
      AtConcat(bytes, p, CoderRecords(coders[..n]), CoderRecord(coders[n]));
      CodersRoundTrip(bytes, p, coders[..n], maximum);
      AtBounds(bytes, p + |CoderRecords(coders[..n])|, CoderRecord(coders[n]));
      CoderRoundTrip(bytes, p + |CoderRecords(coders[..n])|, coders[n], maximum);
      CodersStop(bytes, p, |coders|, maximum);
      if PortsNonzero(coders) {
        CodersStep(bytes, p, |coders|, maximum,
                   CoderRun(RawAll(coders[..n]), InputSum(coders[..n]), OutputSum(coders[..n])),
                   p + |CoderRecords(coders[..n])|, RawOf(coders[n]), p + |CoderRecords(coders)|);
      }
    }
  }

  lemma BindsStep(bytes: Bytes, p: nat, count: nat, before: seq<BindPair>, q: nat, pair: BindPair, r: nat, end: nat)
    requires 0 < count && p <= |bytes| && BindsAt(bytes, p, count - 1) == Success(Parsed(before, q))
    requires UintAt(bytes, q) == Success(Parsed(pair.input, r)) && UintAt(bytes, r) == Success(Parsed(pair.output, end))
    ensures BindsAt(bytes, p, count) == Success(Parsed(before + [pair], end))
  {
    hide UintAt;
  }

  lemma LastBind(bindings: seq<BindPair>)
    requires |bindings| > 0
    ensures
      var before, last := bindings[..|bindings| - 1], bindings[|bindings| - 1];
      && bindings == before + [last]
      && BindRecords(bindings) == BindRecords(before) + (EncodeUint(last.input) + EncodeUint(last.output))
  {
    hide EncodeUint;
  }

  lemma NoBinds(bytes: Bytes, p: nat)
    requires p <= |bytes|
    ensures BindsAt(bytes, p, 0) == Success(Parsed([], p)) && BindRecords([]) == []
  {
  }

  lemma {:induction false} BindsRoundTrip(bytes: Bytes, p: nat, bindings: seq<BindPair>)
    requires p <= |bytes| && At(bytes, p, BindRecords(bindings))
    ensures BindsAt(bytes, p, |bindings|) == Success(Parsed(bindings, p + |BindRecords(bindings)|))
    decreases |bindings|
  {
    hide EncodeUint, UintAt, BindsAt, BindRecords, At;
    if |bindings| == 0 {
      NoBinds(bytes, p);
    } else {
      LastBind(bindings);
      var n := |bindings| - 1;
      var input, output := EncodeUint(bindings[n].input), EncodeUint(bindings[n].output);
      var middle := p + |BindRecords(bindings[..n])|;
      AtConcat(bytes, p, BindRecords(bindings[..n]), input + output);
      AtConcat(bytes, middle, input, output);
      BindsRoundTrip(bytes, p, bindings[..n]);
      UintRoundTrip(bytes, middle, bindings[n].input);
      UintRoundTrip(bytes, middle + |input|, bindings[n].output);
      BindsStep(bytes, p, n + 1, bindings[..n], middle, bindings[n], middle + |input|, middle + |input| + |output|);
    }
  }

  lemma {:induction false} UintsRoundTrip(bytes: Bytes, p: nat, values: seq<u64>)
    requires p <= |bytes| && At(bytes, p, UintRecords(values))
    ensures UintsAt(bytes, p, |values|) == Success(Parsed(values, p + |UintRecords(values)|))
    decreases |values|
  {
    hide EncodeUint, UintAt;
    if |values| > 0 {
      var n := |values| - 1;
      AtConcat(bytes, p, UintRecords(values[..n]), EncodeUint(values[n]));
      UintsRoundTrip(bytes, p, values[..n]);
      UintRoundTrip(bytes, p + |UintRecords(values[..n])|, values[n]);
      assert values == values[..n] + [values[n]];
    }
  }

  /** Limits that let the folder through. */
  predicate WithinLimits(coders: seq<SeedCoder>, limits: Limits, totalCoders: nat, totalStreams: nat) {
    && |coders| <= limits.maxCodersPerFolder
    && totalCoders + |coders| <= limits.maxTotalCoders
    && InputSum(coders) + OutputSum(coders) <= limits.maxStreamsPerFolder
    && totalStreams + InputSum(coders) + OutputSum(coders) <= limits.maxTotalStreams
    && Readable(coders, limits.maxCoderPropertyBytes)
  }

  /** The folder the record stands for. */
  function Intended(coders: seq<SeedCoder>, bindings: seq<BindPair>, packed: seq<u64>): RawFolder
    requires Encodable(coders, bindings, packed)
  {
    RawFolder(RawAll(coders), InputSum(coders), OutputSum(coders), bindings, |packed|,
              if |packed| == 1 then None else Some(packed), [])
  }

  lemma FolderStep(bytes: Bytes, p: nat, limits: Limits, coders: nat, streams: nat, count: u64, q: nat, run: CoderRun,
                   q': nat, folder: RawFolder, total: nat, end: nat)
    requires p <= |bytes| && UintAt(bytes, p) == Success(Parsed(count, q))
    requires 0 < count <= limits.maxCodersPerFolder && coders + count <= limits.maxTotalCoders
    requires CodersAt(bytes, q, count, limits.maxCoderPropertyBytes) == Success(Parsed(run, q'))
    requires ConnectionsAt(bytes, q', run, limits, streams) == Success(Parsed((folder, total), end))
    ensures FolderAt(bytes, p, limits, coders, streams)
      == Success(Parsed(FolderRun(folder, coders + count, total), end))
  {
    hide UintAt, CodersAt, ConnectionsAt;
  }

  lemma FolderStop(bytes: Bytes, p: nat, limits: Limits, coders: nat, streams: nat, count: u64, q: nat)
    requires p <= |bytes| && UintAt(bytes, p) == Success(Parsed(count, q))
    requires 0 < count <= limits.maxCodersPerFolder && coders + count <= limits.maxTotalCoders
    ensures
      var run := CodersAt(bytes, q, count, limits.maxCoderPropertyBytes);
      run.Failure? ==> FolderAt(bytes, p, limits, coders, streams) == Failure(run.error)
  {
    hide UintAt, CodersAt, ConnectionsAt;
  }

  /** The parser consumes a written folder record exactly and returns what was written,
      if and only if every coder has inputs and outputs. */
  lemma FolderRoundTrip(bytes: Bytes, p: nat, coders: seq<SeedCoder>, bindings: seq<BindPair>, packed: seq<u64>,
                        limits: Limits, totalCoders: nat, totalStreams: nat)
    requires p <= |bytes| && Encodable(coders, bindings, packed) && At(bytes, p, FolderRecord(coders, bindings, packed))
    requires WithinLimits(coders, limits, totalCoders, totalStreams)
    ensures FolderAt(bytes, p, limits, totalCoders, totalStreams) ==
      if PortsNonzero(coders) then
        Success(Parsed(
          FolderRun(Intended(coders, bindings, packed), totalCoders + |coders|,
                    totalStreams + InputSum(coders) + OutputSum(coders)),
          p + |FolderRecord(coders, bindings, packed)|))
      else Failure(Format(ZeroStreamCount))
  {
    hide PortsNonzero, EncodeUint, UintAt, CodersAt, ConnectionsAt, CoderRecords, BindRecords, UintRecords, Readable,
         RawAll, FolderAt, At;
    var count := EncodeUint(|coders|);
    var indices := if |packed| == 1 then [] else UintRecords(packed);
    AtConcat(bytes, p, count, CoderRecords(coders) + (BindRecords(bindings) + indices));
    UintRoundTrip(bytes, p, |coders|);
    AtConcat(bytes, p + |count|, CoderRecords(coders), BindRecords(bindings) + indices);
    CodersRoundTrip(bytes, p + |count|, coders, limits.maxCoderPropertyBytes);
    FolderStop(bytes, p, limits, totalCoders, totalStreams, |coders|, p + |count|);
    if PortsNonzero(coders) {
      var rest := p + |count| + |CoderRecords(coders)|;
      ConnectionsRoundTrip(bytes, rest, coders, bindings, packed, limits, totalStreams);
      FolderStep(bytes, p, limits, totalCoders, totalStreams, |coders|, p + |count|,
                 CoderRun(RawAll(coders), InputSum(coders), OutputSum(coders)), rest,
                 Intended(coders, bindings, packed), totalStreams + InputSum(coders) + OutputSum(coders),
                 p + |FolderRecord(coders, bindings, packed)|);
    }
  }

  lemma ConnectionsRoundTrip(bytes: Bytes, p: nat, coders: seq<SeedCoder>, bindings: seq<BindPair>, packed: seq<u64>,
                             limits: Limits, totalStreams: nat)
    requires p <= |bytes| && Encodable(coders, bindings, packed)
    requires At(bytes, p, BindRecords(bindings) + if |packed| == 1 then [] else UintRecords(packed))
    requires InputSum(coders) + OutputSum(coders) <= limits.maxStreamsPerFolder
    requires totalStreams + InputSum(coders) + OutputSum(coders) <= limits.maxTotalStreams
    requires limits.maxTotalStreams <= U64_MAX
    ensures ConnectionsAt(bytes, p, CoderRun(RawAll(coders), InputSum(coders), OutputSum(coders)), limits, totalStreams)
         == Success(Parsed((Intended(coders, bindings, packed), totalStreams + InputSum(coders) + OutputSum(coders)),
              p + |BindRecords(bindings)| + if |packed| == 1 then 0 else |UintRecords(packed)|))
  {
    hide BindsAt, UintsAt, BindRecords, UintRecords, RawAll;
    var indices := if |packed| == 1 then [] else UintRecords(packed);
    AtConcat(bytes, p, BindRecords(bindings), indices);
    BindsRoundTrip(bytes, p, bindings);
    if |packed| != 1 {
      UintsRoundTrip(bytes, p + |BindRecords(bindings)|, packed);
    }
  }

  // ----- The builder's loops.

  method PushCoder(header: Bytes, c: SeedCoder) returns (r: Option<Bytes>)
    ensures r.Some? <==> CoderWritable(c)
    ensures r.Some? ==> r.value == header + CoderRecord(c)
  {
    hide EncodeUint, PortsRecord, PropertiesRecord;
    var methodLength := |c.methodId|;
    if methodLength == 0 || methodLength > 0x0f {
      return None;
    }
    if c.properties.Some? && |c.properties.value| >= 0x80 {
      return None;
    }
    var flags := methodLength;
    if c.inputs != 1 || c.outputs != 1 {
      flags := flags + 0x10;
    }
    if c.properties.Some? {
      flags := flags + 0x20;
    }
    var longer := header + [flags] + c.methodId;
    longer := PushPorts(longer, c);
    longer := PushProperties(longer, c);
    return Some(longer);
  }

  method PushPorts(header: Bytes, c: SeedCoder) returns (longer: Bytes)
    ensures longer == header + PortsRecord(c)
  {
    longer := header;
    if c.inputs != 1 || c.outputs != 1 {
      longer := PushUint(longer, c.inputs);
      longer := PushUint(longer, c.outputs);
    }
  }

  method PushProperties(header: Bytes, c: SeedCoder) returns (longer: Bytes)
    requires CoderWritable(c)
    ensures longer == header + PropertiesRecord(c)
  {
    longer := header;
    if c.properties.Some? {
      longer := PushUint(longer, |c.properties.value|);
      longer := longer + c.properties.value;
    }
  }

  method PushCoders(header: Bytes, coders: seq<SeedCoder>) returns (r: Option<Bytes>)
    ensures r.Some? <==> forall c :: c in coders ==> CoderWritable(c)
    ensures r.Some? ==> r.value == header + CoderRecords(coders)
  {
    hide CoderRecord, CoderWritable, CoderEncodable;
    var longer := header;
    for i := 0 to |coders|
      invariant forall c :: c in coders[..i] ==> CoderWritable(c)
      invariant longer == header + CoderRecords(coders[..i])
    {
      var pushed := PushCoder(longer, coders[i]);
      if pushed.None? {
        assert coders[i] in coders;
        return None;
      }
      longer := pushed.value;
      assert coders[..i + 1][..i] == coders[..i];
    }
    assert coders[..|coders|] == coders;
    return Some(longer);
  }

  method PushBinds(header: Bytes, bindings: seq<BindPair>) returns (longer: Bytes)
    ensures longer == header + BindRecords(bindings)
  {
    hide EncodeUint;
    longer := header;
    for i := 0 to |bindings|
      invariant longer == header + BindRecords(bindings[..i])
    {
      longer := PushUint(longer, bindings[i].input);
      longer := PushUint(longer, bindings[i].output);
      assert bindings[..i + 1][..i] == bindings[..i];
    }
    assert bindings[..|bindings|] == bindings;
  }

  method PushUints(header: Bytes, values: seq<u64>) returns (longer: Bytes)
    ensures longer == header + UintRecords(values)
  {
    hide EncodeUint;
    longer := header;
    for i := 0 to |values|
      invariant longer == header + UintRecords(values[..i])
    {
      longer := PushUint(longer, values[i]);
      assert values[..i + 1][..i] == values[..i];
    }
    assert values[..|values|] == values;
  }

  method SumPorts(coders: seq<SeedCoder>) returns (inputs: nat, outputs: nat)
    ensures inputs == InputSum(coders) && outputs == OutputSum(coders)
  {
    inputs, outputs := 0, 0;
    for i := 0 to |coders|
      invariant inputs == InputSum(coders[..i]) && outputs == OutputSum(coders[..i])
    {
      inputs, outputs := inputs + coders[i].inputs, outputs + coders[i].outputs;
      assert coders[..i + 1][..i] == coders[..i];
    }
    assert coders[..|coders|] == coders;
  }

  /** Appends the folder record, or refuses what it cannot write. */
  method PushFolder(header: Bytes, coders: seq<SeedCoder>, bindings: seq<BindPair>, packed: seq<u64>)
      returns (r: Option<Bytes>)
    requires |coders| <= U64_MAX
    ensures r.Some? <==> Writable(coders, bindings, packed)
    ensures r.Some? ==> r.value == header + FolderRecord(coders, bindings, packed)
  {
    hide EncodeUint, CoderRecords, BindRecords, UintRecords, CoderWritable, InputSum, OutputSum;
    if |packed| == 0 || |coders| == 0 {
      return None;
    }
    var totalInputs, totalOutputs := SumPorts(coders);
    if totalInputs > U64_MAX || totalOutputs > U64_MAX || totalOutputs == 0 || |bindings| != totalOutputs - 1 {
      return None;
    }
    if totalInputs < |bindings| || totalInputs - |bindings| != |packed| {
      return None;
    }
    var longer := PushUint(header, |coders|);
    var withCoders := PushCoders(longer, coders);
    if withCoders.None? {
      return None;
    }
    longer := PushBinds(withCoders.value, bindings);
    if |packed| != 1 {
      longer := PushUints(longer, packed);
    }
    return Some(longer);
  }
}
