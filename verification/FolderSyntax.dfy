/** The folder record of the 7z header: its parser, as a function of the bytes
    and as the reading loop. */
module FolderSyntax {
  import opened Support
  import opened Bounded
  import opened Model
  import opened Reading

  // ----- One coder.

  function PortCountsAt(bytes: Bytes, p: nat, explicit: bool): (r: Result<Parsed<(u64, u64)>>)
    requires p <= |bytes|
    ensures r.Success? ==>
      p <= r.value.end <= |bytes| && 0 < r.value.value.0 && 0 < r.value.value.1
    ensures r.Failure? ==> SyntaxFault(r.error)
  {
    if !explicit then Success(Parsed((1, 1), p))
    else
      var inputs :- UintAt(bytes, p);
      var outputs :- UintAt(bytes, inputs.end);
      if inputs.value == 0 || outputs.value == 0 then Failure(Format(ZeroStreamCount))
      else Success(Parsed((inputs.value, outputs.value), outputs.end))
  }

  function PropertiesAt(bytes: Bytes, p: nat, present: bool, maximum: nat): (r: Result<Parsed<Bytes>>)
    requires p <= |bytes|
    ensures r.Success? ==> p <= r.value.end <= |bytes| && |r.value.value| <= U64_MAX
    ensures r.Failure? ==> SyntaxFault(r.error)
  {
    if !present then Success(Parsed([], p))
    else
      var length :- UintAt(bytes, p);
      var _ :- CheckLimit(length.value, maximum, CoderPropertyBytes);
      BytesAt(bytes, length.end, length.value)
  }

  /** The flag bits above the method length. */
  predicate Flag(flags: u8, bit: nat)
    requires bit > 0
  {
    (flags / bit) % 2 == 1
  }

  function CoderAt(bytes: Bytes, p: nat, maximum: nat): (r: Result<Parsed<RawCoder>>)
    requires p <= |bytes|
    ensures r.Success? ==> p <= r.value.end <= |bytes| && r.value.value.inputs > 0 && r.value.value.outputs > 0
    ensures r.Success? ==> StoredCoder(r.value.value)
    ensures r.Failure? ==> SyntaxFault(r.error)
  {
    var flags :- U8At(bytes, p);
    if Flag(flags.value, 0x80) then Failure(UnsupportedFeature(AlternativeCoderMethods))
    else if Flag(flags.value, 0x40) then Failure(Format(ReservedCoderFlag))
    else if flags.value % 0x10 == 0 then Failure(Format(EmptyMethod))
    else
      var methodId :- BytesAt(bytes, flags.end, flags.value % 0x10);
      var ports :- PortCountsAt(bytes, methodId.end, Flag(flags.value, 0x10));
      var properties :- PropertiesAt(bytes, ports.end, Flag(flags.value, 0x20), maximum);
      Success(Parsed(RawCoder(methodId.value, ports.value.0, ports.value.1, properties.value), properties.end))
  }

  /** First bytes from 0x80 on announce alternative methods, from 0x40 on use a reserved
      flag, and those with a zero low half have no method. Everything else is read on. */
  lemma CoderRefused(bytes: Bytes, p: nat, maximum: nat)
    requires p < |bytes|
    ensures bytes[p] >= 0x80 ==> CoderAt(bytes, p, maximum) == Failure(UnsupportedFeature(AlternativeCoderMethods))
    ensures 0x40 <= bytes[p] < 0x80 ==> CoderAt(bytes, p, maximum) == Failure(Format(ReservedCoderFlag))
    ensures bytes[p] in {0x00, 0x10, 0x20, 0x30} ==> CoderAt(bytes, p, maximum) == Failure(Format(EmptyMethod))
    ensures bytes[p] < 0x40 && bytes[p] % 0x10 != 0 && p + 1 + bytes[p] % 0x10 > |bytes| ==>
      CoderAt(bytes, p, maximum) == Failure(Format(TruncatedRange))
  {
    hide PortCountsAt, PropertiesAt;
  }

  method ParsePortCounts(reader: BoundedReader, explicit: bool, control: ParseControl) returns (r: Result<(u64, u64)>)
    requires reader.Valid()
    modifies reader, control
    ensures Reads(reader, control, PortCountsAt(reader.bytes, old(reader.position), explicit), r)
  {
    hide UintAt, SyntaxFault;
    SyntaxIsNoInterruption();
    if !explicit {
      return Success((1, 1));
    }
    var inputs :- ReadUint(reader, control);
    var outputs :- ReadUint(reader, control);
    if inputs == 0 || outputs == 0 {
      return Failure(Format(ZeroStreamCount));
    }
    return Success((inputs, outputs));
  }

  method ParseProperties(reader: BoundedReader, present: bool, maximum: nat, control: ParseControl)
      returns (r: Result<Bytes>)
    requires reader.Valid() && |reader.bytes| <= U64_MAX
    modifies reader, control
    ensures Reads(reader, control, PropertiesAt(reader.bytes, old(reader.position), present, maximum), r)
  {
    hide UintAt, SyntaxFault;
    SyntaxIsNoInterruption();
    if !present {
      return Success([]);
    }
    var length :- ReadUint(reader, control);
    var _ :- CheckLimit(length, maximum, CoderPropertyBytes);
    r := ReadBytes(reader, length, control);
  }

  method ParseCoder(reader: BoundedReader, limits: Limits, control: ParseControl) returns (r: Result<RawCoder>)
    requires reader.Valid() && |reader.bytes| <= U64_MAX
    modifies reader, control
    ensures Reads(reader, control, CoderAt(reader.bytes, old(reader.position), limits.maxCoderPropertyBytes), r)
  {
    hide UintAt, PortCountsAt, PropertiesAt, BytesAt, Flag, SyntaxFault;
    SyntaxIsNoInterruption();
    var flags :- ReadU8(reader, control);
    if Flag(flags, 0x80) {
      return Failure(UnsupportedFeature(AlternativeCoderMethods));
    }
    if Flag(flags, 0x40) {
      return Failure(Format(ReservedCoderFlag));
    }
    var methodLength := flags % 0x10;
    if methodLength == 0 {
      return Failure(Format(EmptyMethod));
    }
    var methodId :- ReadBytes(reader, methodLength, control);
    var ports :- ParsePortCounts(reader, Flag(flags, 0x10), control);
    var properties :- ParseProperties(reader, Flag(flags, 0x20), limits.maxCoderPropertyBytes, control);
    return Success(RawCoder(methodId, ports.0, ports.1, properties));
  }

  // ----- Totals kept across folders.

  function AddLimited(value: nat, additional: nat, maximum: nat, limit: LimitKind): (r: Result<nat>)
    ensures r.Success? ==> r.value == value + additional <= maximum && r.value <= U64_MAX
    ensures r.Failure? ==> r.error == Format(TotalOverflows) || r.error == LimitExceeded(limit)
  {
    if value + additional > U64_MAX then Failure(Format(TotalOverflows))
    else if value + additional > maximum then Failure(LimitExceeded(limit))
    else Success(value + additional)
  }

  class ParseState {
    var totalFolders: nat
    var totalCoders: nat
    var totalStreams: nat
    var totalPackedStreams: nat
    var totalSubstreams: nat
    var totalProperties: nat

    constructor ()
      ensures totalFolders == totalCoders == totalStreams == totalPackedStreams == totalSubstreams == totalProperties
        == 0
    {
      totalFolders, totalCoders, totalStreams, totalPackedStreams, totalSubstreams, totalProperties := 0, 0, 0, 0, 0, 0;
    }

    method AddFolders(count: nat, limits: Limits) returns (r: Result<()>)
      modifies this`totalFolders
      ensures
        var total := AddLimited(old(totalFolders), count, limits.maxFolders, TotalFolders);
        if total.Success? then r.Success? && totalFolders == total.value
        else r == Failure(total.error) && totalFolders == old(totalFolders)
    {
      totalFolders :- AddLimited(totalFolders, count, limits.maxFolders, TotalFolders);
      return Success(());
    }

    method AddPackedStreams(count: nat, limits: Limits) returns (r: Result<()>)
      modifies this`totalPackedStreams
      ensures
        var total := AddLimited(old(totalPackedStreams), count, limits.maxTotalStreams, TotalStreams);
        if total.Success? then r.Success? && totalPackedStreams == total.value
        else r == Failure(total.error) && totalPackedStreams == old(totalPackedStreams)
    {
      totalPackedStreams :- AddLimited(totalPackedStreams, count, limits.maxTotalStreams, TotalStreams);
      return Success(());
    }

    method AddCoders(count: nat, limits: Limits) returns (r: Result<()>)
      modifies this`totalCoders
      ensures
        var total := AddLimited(old(totalCoders), count, limits.maxTotalCoders, TotalCoders);
        if total.Success? then r.Success? && totalCoders == total.value
        else r == Failure(total.error) && totalCoders == old(totalCoders)
    {
      totalCoders :- AddLimited(totalCoders, count, limits.maxTotalCoders, TotalCoders);
      return Success(());
    }

    method AddStreams(count: nat, limits: Limits) returns (r: Result<()>)
      modifies this`totalStreams
      ensures
        var total := AddLimited(old(totalStreams), count, limits.maxTotalStreams, TotalStreams);
        if total.Success? then r.Success? && totalStreams == total.value
        else r == Failure(total.error) && totalStreams == old(totalStreams)
    {
      totalStreams :- AddLimited(totalStreams, count, limits.maxTotalStreams, TotalStreams);
      return Success(());
    }

    method AddSubstreams(count: nat, limits: Limits) returns (r: Result<()>)
      modifies this`totalSubstreams
      ensures
        var total := AddLimited(old(totalSubstreams), count, limits.maxSubstreams, Substreams);
        if total.Success? then r.Success? && totalSubstreams == total.value
        else r == Failure(total.error) && totalSubstreams == old(totalSubstreams)
    {
      totalSubstreams :- AddLimited(totalSubstreams, count, limits.maxSubstreams, Substreams);
      return Success(());
    }

    method AddProperty(limits: Limits) returns (r: Result<()>)
      modifies this`totalProperties
      ensures
        var total := AddLimited(old(totalProperties), 1, limits.maxHeaderProperties, HeaderProperties);
        if total.Success? then r.Success? && totalProperties == total.value
        else r == Failure(total.error) && totalProperties == old(totalProperties)
    {
      totalProperties :- AddLimited(totalProperties, 1, limits.maxHeaderProperties, HeaderProperties);
      return Success(());
    }
  }

  // ----- The coders of a folder, with their running port counts.

  datatype CoderRun = CoderRun(coders: seq<RawCoder>, inputs: nat, outputs: nat)

  function CodersAt(bytes: Bytes, p: nat, count: nat, maximum: nat): (r: Result<Parsed<CoderRun>>)
    requires p <= |bytes|
    ensures r.Success? ==>
      && p <= r.value.end <= |bytes| && |r.value.value.coders| == count
      && count <= r.value.value.inputs <= U64_MAX && count <= r.value.value.outputs <= U64_MAX
      && forall c :: c in r.value.value.coders ==> StoredCoder(c)
    ensures r.Failure? ==> SyntaxFault(r.error)
  {
    if count == 0 then Success(Parsed(CoderRun([], 0, 0), p))
    else
      var before :- CodersAt(bytes, p, count - 1, maximum);
      var coder :- CoderAt(bytes, before.end, maximum);
      var run :- AddCoder(before.value, coder.value);
      Success(Parsed(run, coder.end))
  }

  function AddCoder(run: CoderRun, coder: RawCoder): (r: Result<CoderRun>)
    ensures r.Success? ==> r.value.inputs <= U64_MAX && r.value.outputs <= U64_MAX
    ensures r.Success? ==>
      r.value == CoderRun(run.coders + [coder], run.inputs + coder.inputs, run.outputs + coder.outputs)
    ensures r.Failure? ==> SyntaxFault(r.error)
  {
    if run.inputs + coder.inputs > U64_MAX || run.outputs + coder.outputs > U64_MAX then Failure(Format(StreamCountOverflows))
    else Success(CoderRun(run.coders + [coder], run.inputs + coder.inputs, run.outputs + coder.outputs))
  }

  lemma {:induction false} CodersFail(bytes: Bytes, p: nat, a: nat, b: nat, maximum: nat)
    requires p <= |bytes| && a <= b && CodersAt(bytes, p, a, maximum).Failure?
    ensures CodersAt(bytes, p, b, maximum) == CodersAt(bytes, p, a, maximum)
    decreases b
  {
    hide CoderAt;
    if a < b {
      CodersFail(bytes, p, a, b - 1, maximum);
    }
  }

  method ParseCoders(reader: BoundedReader, count: nat, limits: Limits, control: ParseControl)
      returns (r: Result<CoderRun>)
    requires reader.Valid() && |reader.bytes| <= U64_MAX
    modifies reader, control
    ensures Reads(reader, control, CodersAt(reader.bytes, old(reader.position), count, limits.maxCoderPropertyBytes), r)
  {
    hide CoderAt, SyntaxFault;
    SyntaxIsNoInterruption();
    ghost var start := reader.position;
    var run := CoderRun([], 0, 0);
    for i := 0 to count
      invariant reader.Valid()
      invariant CodersAt(reader.bytes, start, i, limits.maxCoderPropertyBytes) == Success(Parsed(run, reader.position))
      invariant control.stopped == old(control.stopped)
      invariant old(Enough(reader, control)) ==> Enough(reader, control)
    {
      var coder := ParseCoder(reader, limits, control);
      if coder.Failure? {
        if !Interruption(coder.error) {
          CodersFail(reader.bytes, start, i + 1, count, limits.maxCoderPropertyBytes);
        }
        return Failure(coder.error);
      }
      var longer := AddCoder(run, coder.value);
      if longer.Failure? {
        CodersFail(reader.bytes, start, i + 1, count, limits.maxCoderPropertyBytes);
        return Failure(longer.error);
      }
      run := longer.value;
    }
    return Success(run);
  }

  // ----- Bindings.

  function BindsAt(bytes: Bytes, p: nat, count: nat): (r: Result<Parsed<seq<BindPair>>>)
    requires p <= |bytes|
    ensures r.Success? ==> p <= r.value.end <= |bytes| && |r.value.value| == count
    ensures r.Failure? ==> SyntaxFault(r.error)
  {
    if count == 0 then Success(Parsed([], p))
    else
      var before :- BindsAt(bytes, p, count - 1);
      var input :- UintAt(bytes, before.end);
      var output :- UintAt(bytes, input.end);
      Success(Parsed(before.value + [BindPair(input.value, output.value)], output.end))
  }

  lemma {:induction false} BindsFail(bytes: Bytes, p: nat, a: nat, b: nat)
    requires p <= |bytes| && a <= b && BindsAt(bytes, p, a).Failure?
    ensures BindsAt(bytes, p, b) == BindsAt(bytes, p, a)
    decreases b
  {
    hide UintAt;
    if a < b {
      BindsFail(bytes, p, a, b - 1);
    }
  }

  method ParseBinds(reader: BoundedReader, count: nat, control: ParseControl) returns (r: Result<seq<BindPair>>)
    requires reader.Valid()
    modifies reader, control
    ensures Reads(reader, control, BindsAt(reader.bytes, old(reader.position), count), r)
  {
    hide UintAt, SyntaxFault;
    SyntaxIsNoInterruption();
    ghost var start := reader.position;
    var pairs: seq<BindPair> := [];
    for i := 0 to count
      invariant reader.Valid() && BindsAt(reader.bytes, start, i) == Success(Parsed(pairs, reader.position))
      invariant control.stopped == old(control.stopped)
      invariant old(Enough(reader, control)) ==> Enough(reader, control)
    {
      var input := ReadUint(reader, control);
      if input.Failure? {
        if !Interruption(input.error) {
          BindsFail(reader.bytes, start, i + 1, count);
        }
        return Failure(input.error);
      }
      var output := ReadUint(reader, control);
      if output.Failure? {
        if !Interruption(output.error) {
          BindsFail(reader.bytes, start, i + 1, count);
        }
        return Failure(output.error);
      }
      pairs := pairs + [BindPair(input.value, output.value)];
    }
    return Success(pairs);
  }

  // ----- The folder.

  /** Limits on the port counts, and the counts of bindings and packed inputs they leave. */
  function CheckPorts(run: CoderRun, limits: Limits, streams: nat): (r: Result<nat>)
    requires run.outputs > 0
    ensures r.Success? ==> run.inputs >= run.outputs && run.inputs + run.outputs <= U64_MAX
    ensures r.Failure? ==> SyntaxFault(r.error)
  {
    if run.inputs + run.outputs > U64_MAX then Failure(Format(StreamCountOverflows))
    else
      var _ :- CheckLimit(run.inputs + run.outputs, limits.maxStreamsPerFolder, StreamsPerFolder);
      var total :- AddLimited(streams, run.inputs + run.outputs, limits.maxTotalStreams, TotalStreams);
      if run.inputs < run.outputs then Failure(Format(FewerInputsThanOutputs)) else Success(total)
  }

  function PackedIndicesAt(bytes: Bytes, p: nat, count: nat): (r: Result<Parsed<Option<seq<u64>>>>)
    requires p <= |bytes|
    ensures r.Success? ==> p <= r.value.end <= |bytes|
    ensures r.Success? ==>
      if count == 1 then r.value.value.None? else r.value.value.Some? && |r.value.value.value| == count
    ensures r.Failure? ==> SyntaxFault(r.error)
  {
    if count == 1 then Success(Parsed(None, p))
    else
      var indices :- UintsAt(bytes, p, count);
      Success(Parsed(Some(indices.value), indices.end))
  }

  datatype FolderRun = FolderRun(folder: RawFolder, coders: nat, streams: nat)

  function FolderAt(bytes: Bytes, p: nat, limits: Limits, coders: nat, streams: nat): (r: Result<Parsed<FolderRun>>)
    requires p <= |bytes|
    ensures r.Success? ==> p <= r.value.end <= |bytes| && Consistent(r.value.value.folder)
    ensures r.Failure? ==> SyntaxFault(r.error)
  {
    var count :- UintAt(bytes, p);
    if count.value == 0 then Failure(Format(ZeroCoders))
    else
      var _ :- CheckLimit(count.value, limits.maxCodersPerFolder, CodersPerFolder);
      var totalCoders :- AddLimited(coders, count.value, limits.maxTotalCoders, TotalCoders);
      var run :- CodersAt(bytes, count.end, count.value, limits.maxCoderPropertyBytes);
      var rest :- ConnectionsAt(bytes, run.end, run.value, limits, streams);
      Success(Parsed(FolderRun(rest.value.0, totalCoders, rest.value.1), rest.end))
  }

  /** The counts a parsed folder carries agree with each other. */
  predicate Consistent(f: RawFolder) {
    && |f.coders| > 0
    && f.outputStreams > 0 && f.inputStreams >= f.outputStreams
    && f.inputStreams + f.outputStreams <= U64_MAX
    && |f.bindPairs| == f.outputStreams - 1
    && f.packedStreams == f.inputStreams - |f.bindPairs|
    && (if f.packedStreams == 1 then f.packedIndices.None?
        else f.packedIndices.Some? && |f.packedIndices.value| == f.packedStreams)
  }

  /** No parsed coder lacks inputs or outputs, whatever the limits. */
  lemma {:induction false} CodersHavePorts(bytes: Bytes, p: nat, count: nat, maximum: nat)
    requires p <= |bytes| && CodersAt(bytes, p, count, maximum).Success?
    ensures forall c :: c in CodersAt(bytes, p, count, maximum).value.value.coders ==> c.inputs > 0 && c.outputs > 0
    decreases count
  {
    hide CoderAt;
    if count > 0 {
      CodersHavePorts(bytes, p, count - 1, maximum);
    }
  }

  lemma FolderHasPorts(bytes: Bytes, p: nat, limits: Limits, coders: nat, streams: nat)
    requires p <= |bytes| && FolderAt(bytes, p, limits, coders, streams).Success?
    ensures forall c :: c in FolderAt(bytes, p, limits, coders, streams).value.value.folder.coders ==>
      c.inputs > 0 && c.outputs > 0
  {
    hide UintAt, CodersAt, BindsAt, PackedIndicesAt, CheckPorts;
    var count := UintAt(bytes, p).value;
    CodersHavePorts(bytes, count.end, count.value, limits.maxCoderPropertyBytes);
  }

  method ParsePackedIndices(reader: BoundedReader, count: nat, control: ParseControl)
      returns (r: Result<Option<seq<u64>>>)
    requires reader.Valid()
    modifies reader, control
    ensures Reads(reader, control, PackedIndicesAt(reader.bytes, old(reader.position), count), r)
  {
    hide UintAt, SyntaxFault;
    SyntaxIsNoInterruption();
    if count == 1 {
      return Success(None);
    }
    var indices :- ReadUints(reader, count, control);
    return Success(Some(indices));
  }

  method ParseFolder(reader: BoundedReader, state: ParseState, limits: Limits, control: ParseControl)
      returns (r: Result<RawFolder>)
    requires reader.Valid() && |reader.bytes| <= U64_MAX
    modifies reader, state, control
    ensures reader.Valid() && (r.Success? ==> control.stopped == old(control.stopped))
    ensures unchanged(state`totalFolders) && unchanged(state`totalPackedStreams) && unchanged(state`totalSubstreams)
    ensures unchanged(state`totalProperties)
    ensures
      var found := FolderAt(reader.bytes, old(reader.position), limits, old(state.totalCoders),
                            old(state.totalStreams));
      if r.Success? then
        found == Success(Parsed(FolderRun(r.value, state.totalCoders, state.totalStreams), reader.position))
      else (Interrupted(r) && control.stopped) || found == Failure(r.error)
    ensures old(Enough(reader, control)) ==> !Interrupted(r) && (r.Success? ==> Enough(reader, control))
  {
    hide UintAt, CodersAt, BindsAt, PackedIndicesAt, SyntaxFault;
    SyntaxIsNoInterruption();
    var coderCount :- ReadUint(reader, control);
    if coderCount == 0 {
      return Failure(Format(ZeroCoders));
    }
    var _ :- CheckLimit(coderCount, limits.maxCodersPerFolder, CodersPerFolder);
    var _ :- state.AddCoders(coderCount, limits);
    var run :- ParseCoders(reader, coderCount, limits, control);
    r := ParseConnections(reader, run, state, limits, control);
  }

  /** The part of the record after the coders. */
  function ConnectionsAt(bytes: Bytes, p: nat, run: CoderRun, limits: Limits,
                         streams: nat): (r: Result<Parsed<(RawFolder, nat)>>)
    requires p <= |bytes| && 0 < run.outputs <= U64_MAX && run.inputs <= U64_MAX
    ensures r.Success? ==> p <= r.value.end <= |bytes| && (|run.coders| > 0 ==> Consistent(r.value.value.0))
    ensures r.Failure? ==> SyntaxFault(r.error)
  {
    var totalStreams :- CheckPorts(run, limits, streams);
    var binds :- BindsAt(bytes, p, run.outputs - 1);
    var packed := run.inputs - (run.outputs - 1);
    var indices :- PackedIndicesAt(bytes, binds.end, packed);
    Success(Parsed((RawFolder(run.coders, run.inputs, run.outputs, binds.value, packed, indices.value, []), totalStreams), indices.end))
  }

  method ParseConnections(reader: BoundedReader, run: CoderRun, state: ParseState, limits: Limits,
                          control: ParseControl)
      returns (r: Result<RawFolder>)
    requires reader.Valid() && 0 < run.outputs <= U64_MAX && run.inputs <= U64_MAX
    modifies reader, state, control
    ensures reader.Valid() && (r.Success? ==> control.stopped == old(control.stopped))
    ensures unchanged(state`totalFolders) && unchanged(state`totalPackedStreams) && unchanged(state`totalSubstreams)
    ensures unchanged(state`totalProperties) && unchanged(state`totalCoders)
    ensures
      var found := ConnectionsAt(reader.bytes, old(reader.position), run, limits, old(state.totalStreams));
      if r.Success? then found == Success(Parsed((r.value, state.totalStreams), reader.position))
      else (Interrupted(r) && control.stopped) || found == Failure(r.error)
    ensures old(Enough(reader, control)) ==> !Interrupted(r) && (r.Success? ==> Enough(reader, control))
  {
    hide UintAt, BindsAt, PackedIndicesAt, SyntaxFault;
    SyntaxIsNoInterruption();
    if run.inputs + run.outputs > U64_MAX {
      return Failure(Format(StreamCountOverflows));
    }
    var folderStreams := run.inputs + run.outputs;
    var _ :- CheckLimit(folderStreams, limits.maxStreamsPerFolder, StreamsPerFolder);
    var _ :- state.AddStreams(folderStreams, limits);
    if run.inputs < run.outputs {
      return Failure(Format(FewerInputsThanOutputs));
    }
    var bindCount := run.outputs - 1;
    var bindPairs :- ParseBinds(reader, bindCount, control);
    var packedStreams := run.inputs - bindCount;
    if packedStreams == 0 {
      return Failure(Format(NoPackedInput));
    }
    var packedIndices :- ParsePackedIndices(reader, packedStreams, control);
    return Success(RawFolder(run.coders, run.inputs, run.outputs, bindPairs, packedStreams, packedIndices, []));
  }
}
