/** Running a folder's schedule over port buffers that are taken and replaced in
    place. Where the original re-checks an index that validation already bounded,
    the buffer is indexed directly: that the access is in range is proved. */
module Execution {
  import opened Support
  import opened Model
  import opened Scheduling
  import opened Graph
  import opened Folders
  import opened Evaluation
  import opened Ports
  import Checksums

  datatype DecodedFolder = DecodedFolder(bytes: Bytes, crcMismatch: bool, encrypted: bool)

  // ----- Packed streams.

  /** The pack stream exists, its size is known, and its bytes are in the archive. */
  predicate Available(archive: Bytes, streams: seq<PackStream>, k: nat) {
    && k < |streams|
    && streams[k].size.Some?
    && streams[k].offset + streams[k].size.value <= |archive|
  }

  function StreamBytes(archive: Bytes, streams: seq<PackStream>, k: nat): Bytes
    requires Available(archive, streams, k)
  {
    archive[streams[k].offset..streams[k].offset + streams[k].size.value]
  }

  predicate AllAvailable(archive: Bytes, streams: seq<PackStream>, f: Folder) {
    forall j :: f.firstPackStream <= j < f.firstPackStream + |f.packedInputs| ==> Available(archive, streams, j)
  }

  /** The packed bytes of the folder, one element per packed input. */
  function PackedData(archive: Bytes, streams: seq<PackStream>, f: Folder): (data: seq<Bytes>)
    requires AllAvailable(archive, streams, f)
    ensures |data| == |f.packedInputs|
  {
    seq(|f.packedInputs|, k requires 0 <= k < |f.packedInputs| => StreamBytes(archive, streams, f.firstPackStream + k))
  }

  predicate StreamIntact(archive: Bytes, streams: seq<PackStream>, k: nat) {
    && Available(archive, streams, k)
    && (streams[k].crc.Some? ==> Checksums.Crc(StreamBytes(archive, streams, k)) == streams[k].crc.value)
  }

  predicate AllIntact(archive: Bytes, streams: seq<PackStream>, f: Folder) {
    forall j :: f.firstPackStream <= j < f.firstPackStream + |f.packedInputs| ==> StreamIntact(archive, streams, j)
  }

  /** Checkpoints for one packed stream: one, its checksum if it has one, and its copy. */
  function StreamWork(streams: seq<PackStream>, k: nat): nat {
    if k < |streams| && streams[k].size.Some? then
      1 + (if streams[k].crc.Some? then 2 else 1) * streams[k].size.value
    else 1
  }

  function LoadWork(streams: seq<PackStream>, first: nat, count: nat): nat {
    if count == 0 then 0 else LoadWork(streams, first, count - 1) + StreamWork(streams, first + count - 1)
  }

  lemma {:induction false} LoadWorkGrows(streams: seq<PackStream>, first: nat, a: nat, b: nat)
    requires a <= b
    ensures LoadWork(streams, first, a) <= LoadWork(streams, first, b)
    decreases b
  {
    if a < b {
      LoadWorkGrows(streams, first, a, b - 1);
    }
  }

  /** The bytes of one packed stream, checked against its CRC. */
  method FetchStream(archive: Bytes, streams: seq<PackStream>, k: nat, control: ParseControl) returns (r: Result<Bytes>)
    requires |archive| <= U64_MAX
    modifies control
    ensures r.Success? ==>
      StreamIntact(archive, streams, k) && r.value == StreamBytes(archive, streams, k)
      && control.Charged(StreamWork(streams, k))
    ensures r.Failure? ==>
      || (Interrupted(r) && control.stopped)
      || (!Available(archive, streams, k)
          && (r.error == Format(PackedRangeTruncated) || r.error == UnsupportedFeature(UnknownPackedStreamSize)))
      || (!StreamIntact(archive, streams, k) && r.error == Checksum(PackedStream, None))
    ensures old(control.Ample(StreamWork(streams, k))) ==> !Interrupted(r)
  {
    hide Checksums.Crc;
    var _ :- control.Checkpoint(1);
    if k >= |streams| {
      return Failure(Format(PackedRangeTruncated));
    }
    var stream := streams[k];
    if stream.size.None? {
      return Failure(UnsupportedFeature(UnknownPackedStreamSize));
    }
    if stream.offset + stream.size.value > |archive| {
      return Failure(Format(PackedRangeTruncated));
    }
    var bytes := archive[stream.offset..stream.offset + stream.size.value];
    if stream.crc.Some? {
      var actual :- Checksums.Checksum(bytes, control);
      if actual != stream.crc.value {
        return Failure(Checksum(PackedStream, None));
      }
    }
    var copy := CopyBytes(bytes, control);
    return copy;
  }

  /** Port i once the first |data| packed inputs have been loaded. */
  function PortBefore(packed: seq<u64>, data: seq<Bytes>, i: nat): Option<Bytes>
    requires |data| <= |packed|
  {
    var slot := SlotOf(packed, i);
    if slot.Some? && slot.value < |data| then Some(data[slot.value]) else None
  }

  function LoadedPorts(f: Folder, data: seq<Bytes>, count: nat): Slots
    requires |data| == |f.packedInputs|
  {
    seq(count, i requires 0 <= i < count => PortBefore(f.packedInputs, data, i))
  }

  method LoadPackedInputs(archive: Bytes, streams: seq<PackStream>, f: Folder, ports: array<Option<Bytes>>,
                          control: ParseControl)
      returns (r: Result<()>)
    requires |archive| <= U64_MAX && PackedOk(f.bindPairs, ports.Length, f.packedInputs)
    requires forall i :: 0 <= i < ports.Length ==> ports[i].None?
    modifies ports, control
    ensures r.Success? ==>
      && AllIntact(archive, streams, f) && AllAvailable(archive, streams, f)
      && ports[..] == LoadedPorts(f, PackedData(archive, streams, f), ports.Length)
      && control.Charged(LoadWork(streams, f.firstPackStream, |f.packedInputs|))
    ensures r.Failure? ==> (Interrupted(r) && control.stopped) || Unloadable(archive, streams, f, r.error)
    ensures old(control.Ample(LoadWork(streams, f.firstPackStream, |f.packedInputs|))) ==> !Interrupted(r)
  {
    hide PackedOk, StreamIntact, StreamWork, Available;
    ghost var first := f.firstPackStream;
    PackedDistinct(f.bindPairs, ports.Length, f.packedInputs);
    ghost var data: seq<Bytes> := [];
    for k := 0 to |f.packedInputs|
      invariant forall j :: first <= j < first + k ==>
        StreamIntact(archive, streams, j) && Available(archive, streams, j)
      invariant |data| == k && forall j :: 0 <= j < k ==> data[j] == StreamBytes(archive, streams, first + j)
      invariant forall i :: 0 <= i < ports.Length ==> ports[i] == PortBefore(f.packedInputs, data, i)
      invariant control.Charged(LoadWork(streams, first, k))
    {
      LoadWorkGrows(streams, first, k + 1, |f.packedInputs|);
      var bytes :- FetchStream(archive, streams, f.firstPackStream + k, control);
      StreamFacts(archive, streams, first + k);
      var port := f.packedInputs[k];
      PortAfter(f.packedInputs, data, bytes);
      if ports[port].Some? {
        return Failure(Format(PackedPopulatedTwice));
      }
      ports[port] := Some(bytes);
      data := data + [bytes];
    }
    assert data == PackedData(archive, streams, f);
    return Success(());
  }

  lemma PackedDistinct(binds: seq<BindPair>, inputs: nat, packed: seq<u64>)
    requires PackedOk(binds, inputs, packed)
    ensures forall i, j :: 0 <= i < j < |packed| ==> packed[i] != packed[j]
    ensures forall i :: 0 <= i < |packed| ==> packed[i] < inputs
  {
    forall i | 0 <= i < |packed| ensures packed[i] < inputs {
      assert packed[i] in packed;
    }
  }

  lemma StreamFacts(archive: Bytes, streams: seq<PackStream>, k: nat)
    requires StreamIntact(archive, streams, k)
    ensures Available(archive, streams, k)
  {
  }

  lemma PortAfter(packed: seq<u64>, data: seq<Bytes>, bytes: Bytes)
    requires |data| < |packed| && forall i, j :: 0 <= i < j < |packed| ==> packed[i] != packed[j]
    ensures PortBefore(packed, data, packed[|data|]).None?
    ensures forall i: nat :: i != packed[|data|] ==>
      PortBefore(packed, data + [bytes], i) == PortBefore(packed, data, i)
    ensures PortBefore(packed, data + [bytes], packed[|data|]) == Some(bytes)
  {
    SlotAt(packed, |data|);
  }

  /** Loading leaves the buffers as they are before any coder has run. */
  lemma LoadedIsStart(env: Env)
    requires Sound(env)
    ensures Inputs(env, {}, LoadedPorts(env.f, env.data, InputTotal(env.f)))
  {
    hide ValidFolder, SingleOutputs, EvalOutput;
    EveryOwnerListed(env);
    forall i: nat | i < InputTotal(env.f)
      ensures PortBefore(env.f.packedInputs, env.data, i) == InputHolds(env, {}, i) {
      InputIsFed(env.f, i);
    }
  }

  // ----- Output targets.

  method OutputDestinations(f: Folder, outputCount: nat, control: ParseControl) returns (r: Result<array<Option<nat>>>)
    requires BindsOk(f.bindPairs, InputTotal(f), outputCount)
    modifies control
    ensures r.Success? ==> fresh(r.value) && r.value.Length == outputCount && control.Charged(|f.bindPairs|)
    ensures r.Success? ==> forall o :: 0 <= o < outputCount ==> r.value[o] == DestinationOf(f.bindPairs, o)
    ensures r.Failure? ==> Interrupted(r) && control.stopped
    ensures old(control.Ample(|f.bindPairs|)) ==> r.Success?
  {
    var destinations := new Option<nat>[outputCount](_ => None);
    for k := 0 to |f.bindPairs|
      invariant forall o :: 0 <= o < outputCount ==> destinations[o] == DestinationAmong(f.bindPairs, k, o)
      invariant control.Charged(k)
    {
      var _ :- control.Checkpoint(1);
      var pair := f.bindPairs[k];
      DestinationOnce(f.bindPairs, InputTotal(f), outputCount, k);
      if destinations[pair.output].Some? {
        return Failure(Format(DuplicateOutputBinding));
      }
      destinations[pair.output] := Some(pair.input);
    }
    DestinationAll(f.bindPairs, InputTotal(f), outputCount);
    return Success(destinations);
  }

  /** The target of output o among the first k bindings. */
  function DestinationAmong(binds: seq<BindPair>, k: nat, o: nat): Option<nat>
    requires k <= |binds|
  {
    if k == 0 then None
    else if binds[k - 1].output == o then Some(binds[k - 1].input)
    else DestinationAmong(binds, k - 1, o)
  }

  lemma {:induction false} NoneAmong(binds: seq<BindPair>, k: nat, o: nat)
    requires k <= |binds|
    ensures DestinationAmong(binds, k, o).None? <==> forall j :: 0 <= j < k ==> binds[j].output != o
    ensures DestinationAmong(binds, k, o).Some? ==>
      exists j :: 0 <= j < k && binds[j].output == o && Some(binds[j].input) == DestinationAmong(binds, k, o)
    decreases k
  {
    if k > 0 {
      NoneAmong(binds, k - 1, o);
    }
  }

  lemma DestinationOnce(binds: seq<BindPair>, inputs: nat, outputs: nat, k: nat)
    requires BindsOk(binds, inputs, outputs) && k < |binds|
    ensures binds[k].output < outputs && DestinationAmong(binds, k, binds[k].output).None?
  {
    assert binds[k] in binds;
    NoneAmong(binds, k, binds[k].output);
  }

  lemma DestinationAll(binds: seq<BindPair>, inputs: nat, outputs: nat)
    requires BindsOk(binds, inputs, outputs)
    ensures forall o: nat :: DestinationAmong(binds, |binds|, o) == DestinationOf(binds, o)
  {
    forall o: nat ensures DestinationAmong(binds, |binds|, o) == DestinationOf(binds, o) {
      NoneAmong(binds, |binds|, o);
      if DestinationAmong(binds, |binds|, o).Some? {
        var j :| 0 <= j < |binds| && binds[j].output == o
            && Some(binds[j].input) == DestinationAmong(binds, |binds|, o);
        assert binds[j] in binds;
        BindingsMatch(binds, inputs, outputs, binds[j].input, o);
      }
    }
  }

  // ----- One coder's turn.

  /** Takes the coder's inputs out of their ports, in order. */
  method TakeInputs(start: nat, count: nat, ports: array<Option<Bytes>>) returns (r: Result<seq<Bytes>>)
    requires start + count <= ports.Length
    modifies ports
    ensures (forall i :: start <= i < start + count ==> old(ports[i]).Some?) ==> (
      && r == Success(Taken(old(ports[..]), start, count))
      && ports[..] == Cleared(old(ports[..]), start, count))
    ensures r.Failure? ==> r == Failure(Format(InputUnavailable))
  {
    ghost var before := ports[..];
    ghost var full := forall i :: start <= i < start + count ==> before[i].Some?;
    var inputs: seq<Bytes> := [];
    for relative := 0 to count
      invariant ports[..] == Cleared(before, start, relative)
      invariant full ==> inputs == Taken(before, start, relative)
    {
      var index := start + relative;
      assert ports[..][index] == before[index];
      var input := ports[index];
      if input.None? {
        return Failure(Format(InputUnavailable));
      }
      ports[index] := None;
      inputs := inputs + [input.value];
    }
    return Success(inputs);
  }

  /** Hands an output to the port its binding names, or keeps it as the root. */
  method Deliver(output: Bytes, slot: nat, ports: array<Option<Bytes>>, targets: array<Option<nat>>,
                 outs: array<Option<Bytes>>)
      returns (r: Result<()>)
    requires slot < targets.Length == outs.Length && ports != outs
    requires targets[slot].Some? ==> targets[slot].value < ports.Length
    modifies ports, targets, outs
    ensures targets[..] == old(targets[..])[slot := None]
    ensures
      var target := old(targets[slot]);
      if target.Some? then
        && (r.Success? <==> old(ports[target.value]).None?)
        && ports[..] == old(ports[..])[target.value := Some(output)] && outs[..] == old(outs[..])
      else
        && (r.Success? <==> old(outs[slot]).None?)
        && outs[..] == old(outs[..])[slot := Some(output)] && ports[..] == old(ports[..])
    ensures r.Failure? ==> r.error == Format(InputPopulatedTwice) || r.error == Format(RootPopulatedTwice)
  {
    var target := targets[slot];
    targets[slot] := None;
    if target.Some? {
      var previous := ports[target.value];
      ports[target.value] := Some(output);
      if previous.Some? {
        return Failure(Format(InputPopulatedTwice));
      }
    } else {
      var previous := outs[slot];
      outs[slot] := Some(output);
      if previous.Some? {
        return Failure(Format(RootPopulatedTwice));
      }
    }
    return Success(());
  }

  // ----- The schedule.

  ghost predicate Buffers(env: Env, k: nat, done: set<nat>, ports: Slots, targets: seq<Option<nat>>, outs: Slots) {
    Sound(env) && Ran(env, k, done) && Inputs(env, done, ports) && Destinations(env, done, targets)
      && Outputs(env, done, outs)
  }

  lemma TurnFacts(env: Env, k: nat, done: set<nat>, ports: Slots, targets: seq<Option<nat>>, outs: Slots)
    requires Buffers(env, k, done, ports, targets, outs) && k < |env.f.order|
    ensures
      var c := env.f.order[k];
      && c < |env.f.coders| && env.f.coders[c] in env.f.coders
      && |targets| == |outs| == |env.f.unpackSizes| == |env.f.coders|
      && env.f.coders[c].outputStart == c && c !in done
      && targets[c] == DestinationOf(env.f.bindPairs, c) && outs[c].None?
      && (targets[c].Some? ==> targets[c].value < |ports| && ports[targets[c].value].None?)
  {
    hide ValidFolder, EvalOutput, EvalInput, InputHolds;
    var c := env.f.order[k];
    AllListed(env.f);
    CodersNumbered(env.f);
    PositionUnique(env.f.order, k);
    PositionDone(env.f.order, k, c);
    var d := DestinationOf(env.f.bindPairs, c);
    if d.Some? {
      TargetFree(env, k, done, ports, c, d.value);
    }
  }

  lemma CodersNumbered(f: Folder)
    requires ValidFolder(f) && SingleOutputs(f)
    ensures forall i :: 0 <= i < |f.coders| ==> f.coders[i].outputStart == i
  {
    OutputsAreCoders(f);
  }

  lemma TurnDone(env: Env, k: nat, done: set<nat>, ports: Slots, targets: seq<Option<nat>>, outs: Slots, c: nat,
                 ports': Slots, targets': seq<Option<nat>>, outs': Slots)
    requires Buffers(env, k, done, ports, targets, outs) && k < |env.f.order| && c == env.f.order[k]
    requires c < |env.f.coders| && c < |targets| && c < |outs| && EvalOutput(env, c).Some?
    requires targets[c] == DestinationOf(env.f.bindPairs, c)
    requires targets' == targets[c := None]
    requires
      var cleared := Cleared(ports, env.f.coders[c].inputStart, env.f.coders[c].inputCount);
      if targets[c].Some? then
        targets[c].value < |ports| && ports' == cleared[targets[c].value := EvalOutput(env, c)] && outs' == outs
      else
        ports' == cleared && outs' == outs[c := EvalOutput(env, c)]
    ensures Buffers(env, k + 1, done + {c}, ports', targets', outs')
  {
    hide ValidFolder, SingleOutputs, EvalOutput, EvalInput, InputHolds, Cleared;
    RootHasNoTarget(env.f, c);
    if targets[c].Some? {
      TurnToInput(env, k, done, ports, c, targets[c].value);
    } else {
      TurnToRoot(env, k, done, ports, c);
    }
    RanOneMore(env, k, done);
  }

  method RunCoder(f: Folder, c: nat, codec: CodecFn, maximum: nat, ghost env: Env, ghost k: nat, ghost done: set<nat>,
                  ports: array<Option<Bytes>>, targets: array<Option<nat>>, outs: array<Option<Bytes>>)
      returns (r: Result<()>)
    requires Buffers(env, k, done, ports[..], targets[..], outs[..]) && k < |env.f.order|
    requires env.f == f && env.codec == codec && c == f.order[k] && maximum == CapOf(env, c)
    requires ports != outs && forall coder :: coder in f.coders ==> ValidateRegistration(coder).Success?
    modifies ports, targets, outs
    ensures r.Success? ==> Buffers(env, k + 1, done + {c}, ports[..], targets[..], outs[..])
    ensures r.Failure? ==> CoderFailure(r.error) && c < |f.coders| && EvalOutput(env, c).None?
  {
    hide Sound, Ran, Inputs, Destinations, Outputs, Cleared, DecodeCoder, ValidateRegistration, DestinationOf;
    ghost var before, waiting, kept := ports[..], targets[..], outs[..];
    TurnFacts(env, k, done, before, waiting, kept);
    var coder := f.coders[c];
    RegisteredOutput(coder);
    if coder.outputCount != 1 {
      return Failure(UnsupportedFeature(MultiOutputCoder));
    }
    InputsReady(env, k, done, before, coder.inputCount);
    var inputs := TakeInputs(coder.inputStart, coder.inputCount, ports);
    if inputs.Failure? {
      return Failure(Format(InputUnavailable));
    }
    RegisteredCoderFails(codec, coder, inputs.value, f.unpackSizes[c], maximum);
    var output :- DecodeCoder(codec, coder, inputs.value, f.unpackSizes[c], maximum);
    StaysFree(before, coder.inputStart, coder.inputCount);
    r := Deliver(output, c, ports, targets, outs);
    TurnDone(env, k, done, before, waiting, kept, c, ports[..], targets[..], outs[..]);
  }

  lemma RegisteredOutput(coder: Coder)
    requires ValidateRegistration(coder).Success?
    ensures coder.outputCount == 1
  {
  }

  lemma StaysFree(ports: Slots, start: nat, count: nat)
    ensures |Cleared(ports, start, count)| == |ports|
    ensures forall i :: 0 <= i < |ports| && ports[i].None? ==> Cleared(ports, start, count)[i].None?
  {
  }

  method RunSchedule(f: Folder, codec: CodecFn, maximumOutput: nat, maximumOther: nat, ghost env: Env,
                     ports: array<Option<Bytes>>, targets: array<Option<nat>>, outs: array<Option<Bytes>>,
                     control: ParseControl)
      returns (r: Result<()>)
    requires Buffers(env, 0, {}, ports[..], targets[..], outs[..])
    requires env.f == f && env.codec == codec && env.maxRoot == maximumOutput && env.maxOther == maximumOther
    requires ports != outs && forall coder :: coder in f.coders ==> ValidateRegistration(coder).Success?
    modifies ports, targets, outs, control
    ensures r.Success? ==>
      && control.Charged(|f.order|)
      && exists done :: Buffers(env, |f.order|, done, ports[..], targets[..], outs[..])
    ensures r.Failure? ==>
      || (Interrupted(r) && control.stopped)
      || (CoderFailure(r.error) && Sound(env) && EvalRoot(env).None?)
    ensures old(control.Ample(|f.order|)) ==> !Interrupted(r)
  {
    hide Sound, Ran, Inputs, Destinations, Outputs, EvalRoot, EvalOutput, ValidateRegistration;
    ghost var done: set<nat> := {};
    for k := 0 to |f.order|
      invariant Buffers(env, k, done, ports[..], targets[..], outs[..]) && control.Charged(k)
    {
      var _ :- control.Checkpoint(1);
      var c := f.order[k];
      var maximum := if c == f.rootOutput then maximumOutput else maximumOther;
      var ran := RunCoder(f, c, codec, maximum, env, k, done, ports, targets, outs);
      if ran.Failure? {
        FailureReachesRoot(env, c);
        return Failure(ran.error);
      }
      done := done + {c};
    }
    return Success(());
  }

  // ----- Decoding a folder.

  /** What is checked before any byte is touched. */
  predicate Admitted(f: Folder, limits: Limits, maximumOutput: nat) {
    && f.dictionaryBytes <= limits.maxDictionaryBytes
    && (RootSize(f).Some? ==> RootSize(f).value <= maximumOutput)
    && forall coder :: coder in f.coders ==> ValidateRegistration(coder).Success?
  }

  predicate AdmissionError(e: Error) {
    || e == LimitExceeded(DictionaryBytes) || e == LimitExceeded(TotalOutputBytes)
    || e == UnsupportedFeature(MultiOutputCoder) || e == UnsupportedMethod
    || e == Format(CoderArity) || e == Format(CoderProperties)
  }

  function EnvOf(archive: Bytes, streams: seq<PackStream>, f: Folder, codec: CodecFn, maximumOutput: nat,
                 limits: Limits): Env
    requires AllAvailable(archive, streams, f)
  {
    Env(f, PackedData(archive, streams, f), maximumOutput, limits.maxTotalOutputBytes, codec)
  }

  function DecodeWork(streams: seq<PackStream>, f: Folder): nat {
    2 * |f.coders| + |f.bindPairs| + LoadWork(streams, f.firstPackStream, |f.packedInputs|)
  }

  method Admit(f: Folder, limits: Limits, maximumOutput: nat, control: ParseControl) returns (r: Result<()>)
    requires f.rootOutput < |f.unpackSizes|
    modifies control
    ensures r.Success? ==> Admitted(f, limits, maximumOutput) && control.Charged(|f.coders|)
    ensures r.Failure? ==>
      (Interrupted(r) && control.stopped) || (AdmissionError(r.error) && !Admitted(f, limits, maximumOutput))
    ensures old(control.Ample(|f.coders|)) ==> !Interrupted(r)
  {
    hide PropertiesOk, ArityOk;
    var _ :- CheckLimit(f.dictionaryBytes, limits.maxDictionaryBytes, DictionaryBytes);
    if f.unpackSizes[f.rootOutput].Some? {
      var _ :- CheckLimit(f.unpackSizes[f.rootOutput].value, maximumOutput, TotalOutputBytes);
    }
    for i := 0 to |f.coders|
      invariant control.Charged(i)
      invariant forall coder :: coder in f.coders[..i] ==> ValidateRegistration(coder).Success?
    {
      var registered := ValidateRegistration(f.coders[i]);
      if registered.Failure? {
        assert f.coders[i] in f.coders;
        return registered;
      }
      var _ :- control.Checkpoint(1);
      assert f.coders[..i + 1] == f.coders[..i] + [f.coders[i]];
    }
    assert f.coders[..|f.coders|] == f.coders;
    return Success(());
  }

  lemma AdmittedIsSound(f: Folder, limits: Limits, maximumOutput: nat, env: Env)
    requires ValidFolder(f) && Admitted(f, limits, maximumOutput) && env.f == f && |env.data| == |f.packedInputs|
    ensures Sound(env) && OutputTotal(f) == |f.coders| == |f.order|
  {
    hide PropertiesOk, ArityOk, Topological;
    assert SingleOutputs(f);
    OutputsAreCoders(f);
    AllListed(f);
  }

  lemma BuffersAtStart(env: Env, ports: Slots, targets: seq<Option<nat>>, outs: Slots)
    requires Sound(env) && ports == LoadedPorts(env.f, env.data, InputTotal(env.f))
    requires |targets| == |outs| == |env.f.coders|
    requires forall o :: 0 <= o < |targets| ==> targets[o] == DestinationOf(env.f.bindPairs, o)
    requires forall o :: 0 <= o < |outs| ==> outs[o].None?
    ensures Buffers(env, 0, {}, ports, targets, outs)
  {
    hide ValidFolder, SingleOutputs, EvalOutput, Listed, LoadedPorts;
    LoadedIsStart(env);
    assert Members(env.f.order[..0]) == {};
  }

  lemma BuffersAtEnd(env: Env, done: set<nat>, ports: Slots, targets: seq<Option<nat>>, outs: Slots)
    requires Buffers(env, |env.f.order|, done, ports, targets, outs)
    ensures env.f.rootOutput < |outs| && outs[env.f.rootOutput] == EvalRoot(env) && EvalRoot(env).Some?
    ensures forall i :: 0 <= i < |ports| ==> ports[i].None?
    ensures forall o :: 0 <= o < |outs| && o != env.f.rootOutput ==> outs[o].None?
  {
    hide ValidFolder, SingleOutputs, EvalOutput, EvalInput, InputHolds;
    AllRan(env, done, ports);
  }

  /** Runs the folder and collects the root. The checks for left-over inputs, a
      missing root and further roots are kept; their errors are not among the results. */
  method Execute(f: Folder, codec: CodecFn, maximumOutput: nat, maximumOther: nat, ghost env: Env,
                 ports: array<Option<Bytes>>, targets: array<Option<nat>>, outs: array<Option<Bytes>>,
                 control: ParseControl)
      returns (r: Result<Bytes>)
    requires Buffers(env, 0, {}, ports[..], targets[..], outs[..])
    requires env.f == f && env.codec == codec && env.maxRoot == maximumOutput && env.maxOther == maximumOther
    requires ports != outs && forall coder :: coder in f.coders ==> ValidateRegistration(coder).Success?
    modifies ports, targets, outs, control
    ensures r.Success? ==> Sound(env) && EvalRoot(env) == Some(r.value) && control.Charged(|f.order|)
    ensures r.Failure? ==>
      || (Interrupted(r) && control.stopped)
      || (CoderFailure(r.error) && Sound(env) && EvalRoot(env).None?)
    ensures old(control.Ample(|f.order|)) ==> !Interrupted(r)
  {
    hide Sound, Ran, Inputs, Destinations, Outputs, EvalRoot, EvalOutput, ValidateRegistration;
    var _ :- RunSchedule(f, codec, maximumOutput, maximumOther, env, ports, targets, outs, control);
    ghost var done :| Buffers(env, |f.order|, done, ports[..], targets[..], outs[..]);
    BuffersAtEnd(env, done, ports[..], targets[..], outs[..]);
    ghost var finalOuts := outs[..];
    var leftOver := AnyFull(ports);
    if leftOver {
      return Failure(Format(InputUnconsumed));
    }
    var root := outs[f.rootOutput];
    outs[f.rootOutput] := None;
    if root.None? {
      return Failure(Format(RootUnavailable));
    }
    assert outs[..] == finalOuts[f.rootOutput := None];
    var another := AnyFull(outs);
    if another {
      return Failure(Format(MultipleRootStreams));
    }
    return Success(root.value);
  }

  method AnyFull(ports: array<Option<Bytes>>) returns (b: bool)
    ensures b <==> exists i :: 0 <= i < ports.Length && ports[..][i].Some?
  {
    for i := 0 to ports.Length
      invariant forall j :: 0 <= j < i ==> ports[j].None?
    {
      if ports[i].Some? {
        assert ports[..][i].Some?;
        return true;
      }
    }
    return false;
  }

  predicate Encrypted(f: Folder) {
    exists coder :: coder in f.coders && coder.kind == Aes
  }

  /** The k-th packed input of a folder receives the bytes of the k-th stream from its first. */
  lemma PackedBytes(archive: Bytes, streams: seq<PackStream>, f: Folder, codec: CodecFn, limits: Limits,
                    maximumOutput: nat, k: nat)
    requires AllAvailable(archive, streams, f) && k < |f.packedInputs|
    requires Sound(EnvOf(archive, streams, f, codec, maximumOutput, limits))
    ensures f.firstPackStream + k < |streams| && streams[f.firstPackStream + k].size.Some?
    ensures
      var s := streams[f.firstPackStream + k];
      && s.offset + s.size.value <= |archive|
      && f.packedInputs[k] < InputTotal(f) && InputOwners(f)[f.packedInputs[k]] in f.order
      && EvalInput(EnvOf(archive, streams, f, codec, maximumOutput, limits), f.packedInputs[k])
           == Some(archive[s.offset..s.offset + s.size.value])
  {
    hide ValidFolder, SingleOutputs, Listed, EvalInput;
    PackedInput(EnvOf(archive, streams, f, codec, maximumOutput, limits), k);
    assert Available(archive, streams, f.firstPackStream + k);
    assert PackedData(archive, streams, f)[k] == StreamBytes(archive, streams, f.firstPackStream + k);
  }

  /** The root coder may put out what the caller allows, every other coder what the limits
      allow, and each is given its own declared size. */
  lemma CoderCaps(archive: Bytes, streams: seq<PackStream>, f: Folder, codec: CodecFn, limits: Limits,
                  maximumOutput: nat, c: nat, bytes: Bytes)
    requires AllAvailable(archive, streams, f) && c < |f.coders|
    requires Sound(EnvOf(archive, streams, f, codec, maximumOutput, limits))
    ensures
      var env := EnvOf(archive, streams, f, codec, maximumOutput, limits);
      EvalOutput(env, c) == Some(bytes) <==>
        var inputs := EvalInputs(env, c, f.coders[c].inputCount);
        && inputs.Some?
        && DecodeCoder(codec, f.coders[c], inputs.value, f.unpackSizes[c],
                       if c == f.rootOutput then maximumOutput else limits.maxTotalOutputBytes) == Success(bytes)
  {
    hide Sound, DecodeCoder, EvalInputs, EvalOutput, AllAvailable;
    OutputOfCoder(EnvOf(archive, streams, f, codec, maximumOutput, limits), c, bytes);
  }

  predicate IsStored(f: Folder) {
    |f.coders| == 1 && f.coders[0].kind == Copy
  }

  /** One Copy coder has one input and one output, none bound, and one packed stream. */
  lemma StoredShape(f: Folder)
    requires ValidFolder(f) && IsStored(f) && ValidateRegistration(f.coders[0]).Success?
    ensures f.bindPairs == [] && f.packedInputs == [0] && f.rootOutput == 0 && f.coders[0].inputStart == 0
    ensures InputTotal(f) == 1 && OutputTotal(f) == |f.unpackSizes| == 1
  {
    hide Topological;
    PortsOfMethod(f.coders[0]);
    assert Before(InCounts(f.coders), 1) == 1 && Before(OutCounts(f.coders), 1) == 1;
    if |f.bindPairs| > 0 {
      FirstBound(f.bindPairs);
    }
    assert !InputBound(f.bindPairs, 0);
    assert 0 in f.packedInputs;
    forall i | 0 <= i < |f.packedInputs| ensures f.packedInputs[i] == 0 {
      assert f.packedInputs[i] in f.packedInputs;
    }
    OnlyZero(f.packedInputs);
  }

  lemma OnlyZero(packed: seq<u64>)
    requires |packed| > 0 && forall i :: 0 <= i < |packed| ==> packed[i] == 0
    requires forall i, j :: 0 <= i < j < |packed| ==> packed[i] != packed[j]
    ensures packed == [0]
  {
    if |packed| > 1 {
      FirstTwoDiffer(packed);
      assert false;
    }
  }

  lemma FirstTwoDiffer(packed: seq<u64>)
    requires |packed| > 1 && forall i, j :: 0 <= i < j < |packed| ==> packed[i] != packed[j]
    ensures packed[0] != packed[1]
  {
  }

  lemma FirstBound(binds: seq<BindPair>)
    requires |binds| > 0
    ensures OutputBound(binds, binds[0].output) && binds[0] in binds
  {
  }

  /** A stored folder is its packed stream, byte for byte, where that fits. */
  lemma StoredFolder(archive: Bytes, streams: seq<PackStream>, f: Folder, codec: CodecFn, limits: Limits,
                     maximumOutput: nat)
    requires ValidFolder(f) && IsStored(f) && Admitted(f, limits, maximumOutput) && AllAvailable(archive, streams, f)
    ensures f.firstPackStream < |streams| && streams[f.firstPackStream].size.Some? && |f.unpackSizes| == 1
    ensures Sound(EnvOf(archive, streams, f, codec, maximumOutput, limits))
    ensures
      var s := streams[f.firstPackStream];
      && s.offset + s.size.value <= |archive|
      && EvalRoot(EnvOf(archive, streams, f, codec, maximumOutput, limits)) ==
           if s.size.value <= maximumOutput && (f.unpackSizes[0].Some? ==> f.unpackSizes[0].value == s.size.value) then
             Some(archive[s.offset..s.offset + s.size.value])
           else None
  {
    hide ValidFolder, EvalInput, EvalInputs, EvalOutput, DecodeCoder, Sound;
    AdmittedRegistered(f, limits, maximumOutput);
    assert f.coders[0] in f.coders;
    StoredShape(f);
    PortsOfMethod(f.coders[0]);
    var env := EnvOf(archive, streams, f, codec, maximumOutput, limits);
    AdmittedIsSound(f, limits, maximumOutput, env);
    PackedBytes(archive, streams, f, codec, limits, maximumOutput, 0);
    var bytes := EvalInput(env, 0).value;
    StoredInputs(env);
    CopyReturnsInput(codec, f.coders[0], [bytes], f.unpackSizes[0], maximumOutput);
    OutputOfCoder(env, 0, bytes);
    OutputsAreCoders(f);
    if EvalOutput(env, 0).Some? {
      OutputOfCoder(env, 0, EvalOutput(env, 0).value);
    }
  }

  lemma StoredInputs(env: Env)
    requires Sound(env) && |env.f.coders| > 0 && env.f.coders[0].inputCount == 1 && env.f.coders[0].inputStart == 0
    requires InputTotal(env.f) > 0 && InputOwners(env.f)[0] in env.f.order && EvalInput(env, 0).Some?
    ensures EvalInputs(env, 0, 1) == Some([EvalInput(env, 0).value])
  {
    hide ValidFolder, SingleOutputs, Listed, EvalInput;
    assert EvalInputs(env, 0, 0) == Some([]);
    NextInput(env, 0, 0);
    var none: seq<Bytes> := [];
    assert none + [EvalInput(env, 0).value] == [EvalInput(env, 0).value];
  }

  /** Why a folder cannot be decoded: it is not admitted, its packed data is missing or
      damaged, or it has no value because a coder failed. */
  ghost predicate Undecodable(archive: Bytes, streams: seq<PackStream>, f: Folder, codec: CodecFn, limits: Limits,
                              maximumOutput: nat, e: Error) {
    || (AdmissionError(e) && !Admitted(f, limits, maximumOutput))
    || Unloadable(archive, streams, f, e)
    || (CoderFailure(e) && AllAvailable(archive, streams, f)
        && Sound(EnvOf(archive, streams, f, codec, maximumOutput, limits))
        && EvalRoot(EnvOf(archive, streams, f, codec, maximumOutput, limits)).None?)
  }

  predicate Unloadable(archive: Bytes, streams: seq<PackStream>, f: Folder, e: Error) {
    || (!AllAvailable(archive, streams, f)
        && (e == Format(PackedRangeTruncated) || e == UnsupportedFeature(UnknownPackedStreamSize)))
    || (!AllIntact(archive, streams, f) && e == Checksum(PackedStream, None))
  }

  lemma LoadFails(archive: Bytes, streams: seq<PackStream>, f: Folder, codec: CodecFn, limits: Limits,
                  maximumOutput: nat, e: Error)
    requires Unloadable(archive, streams, f, e)
    ensures Undecodable(archive, streams, f, codec, limits, maximumOutput, e)
  {
    hide Unloadable, Admitted, Sound, EvalRoot;
  }

  lemma AdmissionFails(archive: Bytes, streams: seq<PackStream>, f: Folder, codec: CodecFn, limits: Limits,
                       maximumOutput: nat, e: Error)
    requires AdmissionError(e) && !Admitted(f, limits, maximumOutput)
    ensures Undecodable(archive, streams, f, codec, limits, maximumOutput, e)
  {
    hide Unloadable, Admitted, Sound, EvalRoot;
  }

  lemma CoderFails(archive: Bytes, streams: seq<PackStream>, f: Folder, codec: CodecFn, limits: Limits,
                   maximumOutput: nat, e: Error)
    requires CoderFailure(e) && AllAvailable(archive, streams, f)
    requires Sound(EnvOf(archive, streams, f, codec, maximumOutput, limits))
    requires EvalRoot(EnvOf(archive, streams, f, codec, maximumOutput, limits)).None?
    ensures Undecodable(archive, streams, f, codec, limits, maximumOutput, e)
  {
    hide Unloadable, Admitted, Sound, EvalRoot;
  }

  /** The admitted folder's bytes: load the packed inputs, run the schedule, take the root. */
  method DecodeAdmitted(archive: Bytes, streams: seq<PackStream>, f: Folder, codec: CodecFn, limits: Limits,
                        maximumOutput: nat, control: ParseControl)
      returns (r: Result<Bytes>)
    requires |archive| <= U64_MAX && ValidFolder(f) && Admitted(f, limits, maximumOutput)
    modifies control
    ensures r.Success? ==>
      && AllIntact(archive, streams, f) && AllAvailable(archive, streams, f)
      && Sound(EnvOf(archive, streams, f, codec, maximumOutput, limits))
      && EvalRoot(EnvOf(archive, streams, f, codec, maximumOutput, limits)) == Some(r.value)
      && |r.value| <= maximumOutput
      && control.Charged(DecodeWork(streams, f) - |f.coders|)
    ensures r.Failure? ==>
      (Interrupted(r) && control.stopped) || Undecodable(archive, streams, f, codec, limits, maximumOutput, r.error)
    ensures old(control.Ample(DecodeWork(streams, f) - |f.coders|)) ==> !Interrupted(r)
  {
    hide Undecodable, Unloadable, CoderFailure, Checksums.Crc, Sound, EvalRoot, EvalOutput, Admitted, AllIntact;
    hide AllAvailable, LoadWork, PackedData, LoadedPorts, Buffers, BindsOk, PackedOk, RootOk, Topological, Numbered;
    NotInterrupted();
    var inputCount := InputTotal(f);
    var outputCount := OutputTotal(f);
    var inputPorts := new Option<Bytes>[inputCount](_ => None);
    var outputPorts := new Option<Bytes>[outputCount](_ => None);
    var targets :- OutputDestinations(f, outputCount, control);
    var loaded := LoadPackedInputs(archive, streams, f, inputPorts, control);
    if loaded.Failure? {
      if Unloadable(archive, streams, f, loaded.error) {
        LoadFails(archive, streams, f, codec, limits, maximumOutput, loaded.error);
      }
      return Failure(loaded.error);
    }
    ghost var env := EnvOf(archive, streams, f, codec, maximumOutput, limits);
    AdmittedIsSound(f, limits, maximumOutput, env);
    BuffersAtStart(env, inputPorts[..], targets[..], outputPorts[..]);
    AdmittedRegistered(f, limits, maximumOutput);
    r := Execute(f, codec, maximumOutput, limits.maxTotalOutputBytes, env, inputPorts, targets, outputPorts, control);
    if r.Success? {
      RootWithinCap(env);
    } else if EvalRoot(env).None? && CoderFailure(r.error) {
      CoderFails(archive, streams, f, codec, limits, maximumOutput, r.error);
    }
  }

  lemma NotInterrupted()
    ensures forall e :: CoderFailure(e) || AdmissionError(e) ==> !Interruption(e)
  {
  }

  /** The folders whose decoding was begun, in order. */
  class DecodeLog {
    ghost var decoded: seq<nat>

    constructor ()
      ensures decoded == []
    {
      decoded := [];
    }
  }

  /** `index` is the folder's number; the log records that it was decoded. */
  method DecodeFolder(archive: Bytes, streams: seq<PackStream>, f: Folder, codec: CodecFn, limits: Limits,
                      maximumOutput: nat, control: ParseControl, ghost index: nat, ghost log: DecodeLog)
      returns (r: Result<DecodedFolder>)
    requires |archive| <= U64_MAX && maximumOutput <= U64_MAX && ValidFolder(f)
    modifies control, log
    ensures log.decoded == old(log.decoded) + [index]
    ensures r.Success? ==>
      && Admitted(f, limits, maximumOutput) && AllIntact(archive, streams, f) && AllAvailable(archive, streams, f)
      && Sound(EnvOf(archive, streams, f, codec, maximumOutput, limits))
      && EvalRoot(EnvOf(archive, streams, f, codec, maximumOutput, limits)) == Some(r.value.bytes)
      && |r.value.bytes| <= maximumOutput
      && r.value.crcMismatch == (f.crc.Some? && Checksums.Crc(r.value.bytes) != f.crc.value)
      && r.value.encrypted == Encrypted(f)
      && (IsStored(f) ==> IsPackedStream(archive, streams, f, r.value.bytes))
      && control.Charged(DecodeWork(streams, f) + if f.crc.Some? then |r.value.bytes| else 0)
    ensures r.Failure? ==>
      (Interrupted(r) && control.stopped) || Undecodable(archive, streams, f, codec, limits, maximumOutput, r.error)
    ensures old(control.Ample(DecodeWork(streams, f) + if f.crc.Some? then maximumOutput else 0)) ==> !Interrupted(r)
  {
    hide Undecodable, AdmissionError, Checksums.Crc, Sound, EvalRoot, Admitted, AllIntact, AllAvailable, LoadWork;
    hide ValidFolder, IsStored, IsPackedStream;
    log.decoded := log.decoded + [index];
    NotInterrupted();
    RootHasSize(f);
    var encrypted := exists coder :: coder in f.coders && coder.kind == Aes;
    var admitted := Admit(f, limits, maximumOutput, control);
    if admitted.Failure? {
      if AdmissionError(admitted.error) && !Admitted(f, limits, maximumOutput) {
        AdmissionFails(archive, streams, f, codec, limits, maximumOutput, admitted.error);
      }
      return Failure(admitted.error);
    }
    var bytes :- DecodeAdmitted(archive, streams, f, codec, limits, maximumOutput, control);
    StoredBytes(archive, streams, f, codec, limits, maximumOutput, bytes);
    var mismatch := false;
    if f.crc.Some? {
      var actual :- Checksums.Checksum(bytes, control);
      mismatch := actual != f.crc.value;
    }
    return Success(DecodedFolder(bytes, mismatch, encrypted));
  }

  predicate IsPackedStream(archive: Bytes, streams: seq<PackStream>, f: Folder, bytes: Bytes) {
    && f.firstPackStream < |streams| && streams[f.firstPackStream].size.Some?
    && var s := streams[f.firstPackStream];
       s.offset + s.size.value <= |archive| && bytes == archive[s.offset..s.offset + s.size.value]
  }

  lemma StoredBytes(archive: Bytes, streams: seq<PackStream>, f: Folder, codec: CodecFn, limits: Limits,
                    maximumOutput: nat, bytes: Bytes)
    requires ValidFolder(f) && Admitted(f, limits, maximumOutput) && AllAvailable(archive, streams, f)
    requires Sound(EnvOf(archive, streams, f, codec, maximumOutput, limits))
    requires EvalRoot(EnvOf(archive, streams, f, codec, maximumOutput, limits)) == Some(bytes)
    ensures IsStored(f) ==> IsPackedStream(archive, streams, f, bytes)
  {
    hide ValidFolder, Admitted, AllAvailable, Sound, EvalRoot;
    if IsStored(f) {
      StoredFolder(archive, streams, f, codec, limits, maximumOutput);
    }
  }

  lemma RootHasSize(f: Folder)
    requires ValidFolder(f)
    ensures f.rootOutput < |f.unpackSizes|
  {
  }

  lemma AdmittedRegistered(f: Folder, limits: Limits, maximumOutput: nat)
    requires Admitted(f, limits, maximumOutput)
    ensures forall coder :: coder in f.coders ==> ValidateRegistration(coder).Success?
  {
  }

  lemma RootWithinCap(env: Env)
    requires Sound(env) && EvalRoot(env).Some?
    ensures |EvalRoot(env).value| <= env.maxRoot
  {
    hide ValidFolder, SingleOutputs, Listed, EvalInputs;
  }
}
