/** The meaning of a folder: recursive evaluation of its bindings from an output
    back to the packed streams. Codecs are arbitrary pure functions. */
module Evaluation {
  import opened Support
  import opened Model
  import opened Scheduling
  import opened Graph
  import opened Folders

  datatype CodecResult = Decoded(bytes: Bytes) | Failed(reason: nat)

  /** Inputs, declared size and output cap of one coder, to its output. */
  type CodecFn = (Coder, seq<Bytes>, Option<u64>, nat) -> CodecResult

  // ----- One coder.

  function ArityOf(kind: Method): nat {
    if kind == Bcj2 then 4 else 1
  }

  predicate ArityOk(coder: Coder) {
    coder.inputCount == ArityOf(coder.kind) && coder.outputCount == 1
  }

  predicate PpmdPropertiesOk(p: Bytes) {
    && (|p| == 5 || (|p| == 7 && p[5] == 0 && p[6] == 0))
    && 2 <= p[0] <= 64
    && p[1] as int + 0x100 * p[2] as int + 0x1_0000 * p[3] as int + 0x100_0000 * p[4] as int >= 2048
  }

  predicate PropertiesOk(kind: Method, p: Bytes) {
    match kind
    case Copy | Bcj2 | Swap2 | Swap4 | Deflate | Deflate64 | Bzip2 => |p| == 0
    case Lzma => |p| == 5
    case Lzma2 | Delta => |p| == 1
    case Ppmd => PpmdPropertiesOk(p)
    case Bcj | Ppc | Arm | Arm64 | Sparc | Ia64 | ArmThumb | RiscV => |p| == 0 || |p| == 4
    case Brotli | Lz4 | Zstd | Aes | Unregistered => true
  }

  function ValidateRegistration(coder: Coder): Result<()> {
    if coder.outputCount != 1 then Failure(UnsupportedFeature(MultiOutputCoder))
    else if coder.kind == Unregistered then Failure(UnsupportedMethod)
    else if !ArityOk(coder) then Failure(Format(CoderArity))
    else if !PropertiesOk(coder.kind, coder.properties) then Failure(Format(CoderProperties))
    else Success(())
  }

  predicate PermitsUnknownOutput(kind: Method) {
    match kind
    case Ppmd | Bzip2 | Brotli | Lz4 | Zstd | Aes | Unregistered => false
    case _ => true
  }

  predicate IsFilter(kind: Method) {
    match kind
    case Delta | Bcj | Ppc | Arm | Arm64 | Sparc | Ia64 | ArmThumb | RiscV | Swap2 | Swap4 => true
    case _ => false
  }

  function RunMethod(codec: CodecFn, coder: Coder, inputs: seq<Bytes>, expected: Option<u64>,
                     maximum: nat): Result<Bytes> {
    if (coder.kind == Copy || IsFilter(coder.kind)) && |inputs| > 0 && |inputs[0]| > maximum then
      Failure(LimitExceeded(TotalOutputBytes))
    else if coder.kind == Copy && |inputs| > 0 then Success(inputs[0])
    else
      match codec(coder, inputs, expected, maximum)
      case Decoded(bytes) => Success(bytes)
      case Failed(reason) => Failure(Codec(reason))
  }

  function DecodeCoder(codec: CodecFn, coder: Coder, inputs: seq<Bytes>, expected: Option<u64>,
                       maximum: nat): Result<Bytes> {
    if expected.None? && !PermitsUnknownOutput(coder.kind) then Failure(UnsupportedFeature(CoderUnknownUnpackedSize))
    else if coder.kind == Unregistered then Failure(UnsupportedMethod)
    else if !ArityOk(coder) then Failure(Format(CoderArity))
    else if coder.kind == Copy && |coder.properties| > 0 then Failure(Format(CoderProperties))
    else if coder.kind != Bcj2 && |inputs| != 1 then Failure(Format(SingleInputCount))
    else
      var output := RunMethod(codec, coder, inputs, expected, maximum);
      if output.Failure? then output
      else if |output.value| > maximum then Failure(LimitExceeded(TotalOutputBytes))
      else if expected.Some? && expected.value != |output.value| then Failure(Format(OutputSizeMismatch))
      else output
  }

  /** A coder's own ways to fail: its codec, its declared size, the output cap. */
  predicate CoderFailure(e: Error) {
    || e.Codec?
    || e == UnsupportedFeature(CoderUnknownUnpackedSize)
    || e == LimitExceeded(TotalOutputBytes)
    || e == Format(OutputSizeMismatch)
  }

  lemma RegisteredCoderFails(codec: CodecFn, coder: Coder, inputs: seq<Bytes>, expected: Option<u64>, maximum: nat)
    requires ValidateRegistration(coder).Success? && |inputs| == coder.inputCount
    ensures
      var r := DecodeCoder(codec, coder, inputs, expected, maximum);
      && (r.Failure? ==> CoderFailure(r.error))
      && (r.Success? ==> |r.value| <= maximum && (expected.Some? ==> |r.value| == expected.value))
  {
  }

  /** A Copy coder returns its one input as it is. */
  lemma CopyReturnsInput(codec: CodecFn, coder: Coder, inputs: seq<Bytes>, expected: Option<u64>, maximum: nat)
    requires coder.kind == Copy && ValidateRegistration(coder).Success? && |inputs| == coder.inputCount
    ensures |inputs| == 1
    ensures DecodeCoder(codec, coder, inputs, expected, maximum).Success?
      <==> |inputs[0]| <= maximum && (expected.Some? ==> |inputs[0]| == expected.value)
    ensures
      var r := DecodeCoder(codec, coder, inputs, expected, maximum);
      r.Success? ==> r.value == inputs[0]
  {
  }

  /** Any other coder returns what its codec decoded from the same inputs, declared size
      and cap, if that fits; a filter's input must fit too. */
  lemma CodecReturned(codec: CodecFn, coder: Coder, inputs: seq<Bytes>, expected: Option<u64>, maximum: nat,
                      bytes: Bytes)
    requires coder.kind != Copy && ValidateRegistration(coder).Success? && |inputs| == coder.inputCount
    ensures DecodeCoder(codec, coder, inputs, expected, maximum) == Success(bytes) <==>
      && codec(coder, inputs, expected, maximum) == Decoded(bytes)
      && |bytes| <= maximum && (expected.Some? ==> |bytes| == expected.value)
      && (expected.None? ==> coder.kind !in {Ppmd, Bzip2, Brotli, Lz4, Zstd, Aes})
      && (coder.kind in {Delta, Bcj, Ppc, Arm, Arm64, Sparc, Ia64, ArmThumb, RiscV, Swap2, Swap4} ==>
            |inputs[0]| <= maximum)
  {
  }

  /** Four inputs for BCJ2, one for every other method, and always one output. */
  lemma PortsOfMethod(coder: Coder)
    requires ValidateRegistration(coder).Success?
    ensures coder.outputCount == 1 && coder.inputCount == (if coder.kind == Bcj2 then 4 else 1)
    ensures coder.kind != Unregistered
  {
  }

  /** Which coders are registered: one output, the ports of the method, and properties of
      the length the method has. */
  lemma RegisteredExactly(coder: Coder)
    ensures ValidateRegistration(coder).Success? <==>
      var kind, p := coder.kind, coder.properties;
      && coder.outputCount == 1 && coder.inputCount == (if kind == Bcj2 then 4 else 1) && kind != Unregistered
      && (kind in {Copy, Bcj2, Swap2, Swap4, Deflate, Deflate64, Bzip2} ==> p == [])
      && (kind in {Lzma2, Delta} ==> |p| == 1)
      && (kind in {Bcj, Ppc, Arm, Arm64, Sparc, Ia64, ArmThumb, RiscV} ==> |p| in {0, 4})
      && (kind == Lzma ==> |p| == 5)
      && (kind == Ppmd ==>
            && (|p| == 5 || (|p| == 7 && p[5..] == [0, 0])) && 2 <= p[0] <= 64
            && (p[4] > 0 || p[3] > 0 || p[2] >= 8))
  {
    if |coder.properties| == 7 {
      assert coder.properties[5..] == [coder.properties[5], coder.properties[6]];
    }
  }

  /** Raising the cap keeps a codec's output. */
  ghost predicate Monotone(codec: CodecFn) {
    forall coder, inputs, expected, low: nat, high: nat ::
      low <= high && codec(coder, inputs, expected, low).Decoded?
      ==> codec(coder, inputs, expected, high) == codec(coder, inputs, expected, low)
  }

  lemma DecodeCoderMonotone(codec: CodecFn, coder: Coder, inputs: seq<Bytes>, expected: Option<u64>, low: nat,
                            high: nat)
    requires Monotone(codec) && low <= high && DecodeCoder(codec, coder, inputs, expected, low).Success?
    ensures DecodeCoder(codec, coder, inputs, expected, high) == DecodeCoder(codec, coder, inputs, expected, low)
  {
  }

  // ----- The whole folder.

  /** A folder with the bytes of its packed streams and the caps of its coders. */
  datatype Env = Env(f: Folder, data: seq<Bytes>, maxRoot: nat, maxOther: nat, codec: CodecFn)

  ghost predicate Sound(env: Env) {
    && ValidFolder(env.f)
    && SingleOutputs(env.f)
    && |env.data| == |env.f.packedInputs|
    && |env.f.unpackSizes| == |env.f.coders|
    && Listed(env.f)
  }

  function SlotOf(packed: seq<u64>, i: nat): (r: Option<nat>)
    ensures r.Some? ==> r.value < |packed| && packed[r.value] == i
    ensures r.None? ==> i !in packed
  {
    if |packed| == 0 then None
    else if packed[0] == i then Some(0)
    else
      var rest := SlotOf(packed[1..], i);
      if rest.None? then None else Some(rest.value + 1)
  }

  lemma SlotFound(packed: seq<u64>, i: nat)
    ensures SlotOf(packed, i).Some? <==> i in packed
  {
  }

  lemma InputIsFed(f: Folder, i: nat)
    requires ValidFolder(f) && i < InputTotal(f)
    ensures SourceOf(f.bindPairs, i).None? <==> SlotOf(f.packedInputs, i).Some?
  {
    assert InputBound(f.bindPairs, i) <==> i !in f.packedInputs;
    SlotFound(f.packedInputs, i);
  }

  function CapOf(env: Env, c: nat): nat {
    if c == env.f.rootOutput then env.maxRoot else env.maxOther
  }

  lemma PortInterval(counts: seq<nat>, c: nat, j: nat)
    requires c < |counts| && j < counts[c]
    ensures Before(counts, c) + j < Before(counts, |counts|)
    ensures Owners(counts, |counts|)[Before(counts, c) + j] == c
  {
    hide Owners;
    BeforeMonotone(counts, c + 1, |counts|);
    OwnerInterval(counts, |counts|, Before(counts, c) + j, c);
  }

  lemma StartsInRange(coders: seq<Coder>, c: nat, j: nat)
    requires Numbered(coders) && c < |coders| && j < coders[c].inputCount
    ensures coders[c].inputStart + j < Before(InCounts(coders), |coders|)
    ensures Owners(InCounts(coders), |coders|)[coders[c].inputStart + j] == c
  {
    hide Owners, Before;
    PortInterval(InCounts(coders), c, j);
  }

  lemma InputsInRange(f: Folder, c: nat, j: nat)
    requires ValidFolder(f) && c < |f.coders| && j < f.coders[c].inputCount
    ensures f.coders[c].inputStart + j < InputTotal(f)
    ensures InputOwners(f)[f.coders[c].inputStart + j] == c
  {
    hide Owners, Before, BindsOk, RootOk, PackedOk, Topological, PortsInRange, Numbered;
    StartsInRange(f.coders, c, j);
  }

  /** What coder c puts out: its codec over whatever its inputs evaluate to. */
  ghost function EvalOutput(env: Env, c: nat): Option<Bytes>
    requires Sound(env) && c < |env.f.coders|
    decreases Position(env.f.order, c), 2, 0
  {
    var inputs := EvalInputs(env, c, env.f.coders[c].inputCount);
    if inputs.None? then None else Produced(env, c, inputs.value)
  }

  function Produced(env: Env, c: nat, inputs: seq<Bytes>): Option<Bytes>
    requires c < |env.f.coders| && |env.f.unpackSizes| == |env.f.coders|
  {
    var r := DecodeCoder(env.codec, env.f.coders[c], inputs, env.f.unpackSizes[c], CapOf(env, c));
    if r.Failure? then None else Some(r.value)
  }

  /** The first j inputs of coder c. */
  ghost function EvalInputs(env: Env, c: nat, j: nat): (r: Option<seq<Bytes>>)
    requires Sound(env) && c < |env.f.coders| && j <= env.f.coders[c].inputCount
    ensures r.Some? ==> |r.value| == j
    decreases Position(env.f.order, c), 1, j
  {
    if j == 0 then Some([])
    else
      InputsInRange(env.f, c, j - 1);
      Append(EvalInputs(env, c, j - 1), EvalInput(env, env.f.coders[c].inputStart + j - 1))
  }

  function Append(before: Option<seq<Bytes>>, bytes: Option<Bytes>): Option<seq<Bytes>> {
    if before.None? || bytes.None? then None else Some(before.value + [bytes.value])
  }

  /** What arrives at input port i: the bound coder's output, or a packed stream. */
  ghost function EvalInput(env: Env, i: nat): Option<Bytes>
    requires Sound(env) && i < InputTotal(env.f) && InputOwners(env.f)[i] in env.f.order
    decreases Position(env.f.order, InputOwners(env.f)[i]), 0, 0
  {
    var source := SourceOf(env.f.bindPairs, i);
    if source.None? then
      InputIsFed(env.f, i);
      Some(env.data[SlotOf(env.f.packedInputs, i).value])
    else
      SourceEarlier(env.f, i, source.value);
      EvalOutput(env, source.value)
  }

  /** The folder's bytes: what its root output evaluates to. */
  ghost function EvalRoot(env: Env): Option<Bytes>
    requires Sound(env)
  {
    OutputsAreCoders(env.f);
    EvalOutput(env, env.f.rootOutput)
  }

  // ----- What arrives where.

  /** A bound input receives the output it is bound to. */
  lemma BoundInput(env: Env, b: BindPair)
    requires Sound(env) && b in env.f.bindPairs
    ensures b.input < InputTotal(env.f) && b.output < |env.f.coders| && InputOwners(env.f)[b.input] in env.f.order
    ensures EvalInput(env, b.input) == EvalOutput(env, b.output)
  {
    hide EvalOutput;
    OutputsAreCoders(env.f);
    BindingsMatch(env.f.bindPairs, InputTotal(env.f), OutputTotal(env.f), b.input, b.output);
    SourceEarlier(env.f, b.input, b.output);
  }

  lemma {:induction false} SlotAt(packed: seq<u64>, k: nat)
    requires k < |packed| && forall i, j :: 0 <= i < j < |packed| ==> packed[i] != packed[j]
    ensures SlotOf(packed, packed[k]) == Some(k)
    decreases |packed|
  {
    if k > 0 {
      SlotAt(packed[1..], k - 1);
    }
  }

  /** The k-th packed input receives the k-th packed stream. */
  lemma PackedInput(env: Env, k: nat)
    requires Sound(env) && k < |env.f.packedInputs|
    ensures env.f.packedInputs[k] < InputTotal(env.f) && InputOwners(env.f)[env.f.packedInputs[k]] in env.f.order
    ensures EvalInput(env, env.f.packedInputs[k]) == Some(env.data[k])
  {
    hide EvalOutput, Topological;
    var i := env.f.packedInputs[k];
    assert i in env.f.packedInputs;
    SlotAt(env.f.packedInputs, k);
    InputIsFed(env.f, i);
    OwnerListed(env.f, i);
  }

  lemma OwnerListed(f: Folder, i: nat)
    requires ValidFolder(f) && Listed(f) && i < InputTotal(f)
    ensures InputOwners(f)[i] in f.order
  {
    hide ValidFolder, Owners;
    assert InputOwners(f)[i] in InputOwners(f);
  }

  /** A coder's inputs are handed over in the order of its ports. */
  lemma {:induction false} InputsInOrder(env: Env, c: nat, n: nat, j: nat)
    requires Sound(env) && c < |env.f.coders| && j < n <= env.f.coders[c].inputCount && EvalInputs(env, c, n).Some?
    ensures
      var port := env.f.coders[c].inputStart + j;
      && port < InputTotal(env.f) && InputOwners(env.f)[port] == c
      && EvalInput(env, port) == Some(EvalInputs(env, c, n).value[j])
    decreases n
  {
    hide Sound, EvalInput;
    NextInput(env, c, n - 1);
    if j < n - 1 {
      InputsInOrder(env, c, n - 1, j);
    }
  }

  lemma NextInput(env: Env, c: nat, j: nat)
    requires Sound(env) && c < |env.f.coders| && j < env.f.coders[c].inputCount
    ensures env.f.coders[c].inputStart + j < InputTotal(env.f)
    ensures InputOwners(env.f)[env.f.coders[c].inputStart + j] == c
    ensures EvalInputs(env, c, j + 1) == Append(EvalInputs(env, c, j), EvalInput(env, env.f.coders[c].inputStart + j))
  {
    hide ValidFolder, SingleOutputs, Listed, EvalInput;
    InputsInRange(env.f, c, j);
  }

  /** The root runs under the folder's cap, every other coder under the general one, and
      each with its own declared size. */
  lemma OutputOfCoder(env: Env, c: nat, bytes: Bytes)
    requires Sound(env) && c < |env.f.coders|
    ensures EvalOutput(env, c) == Some(bytes) <==>
      var inputs := EvalInputs(env, c, env.f.coders[c].inputCount);
      && inputs.Some?
      && DecodeCoder(env.codec, env.f.coders[c], inputs.value, env.f.unpackSizes[c],
                     if c == env.f.rootOutput then env.maxRoot else env.maxOther) == Success(bytes)
  {
    hide Sound, DecodeCoder, EvalInputs;
  }

  // ----- The value depends neither on the schedule nor, with monotone codecs, on a larger cap.

  ghost predicate Raised(a: Env, b: Env) {
    && Sound(a) && Sound(b)
    && b.f == a.f.(order := b.f.order)
    && b.data == a.data && b.codec == a.codec && b.maxOther == a.maxOther
    && (b.maxRoot == a.maxRoot || (Monotone(a.codec) && a.maxRoot <= b.maxRoot))
  }

  lemma {:induction false} OutputKept(a: Env, b: Env, c: nat)
    requires Raised(a, b) && c < |a.f.coders| && EvalOutput(a, c).Some?
    ensures EvalOutput(b, c) == EvalOutput(a, c)
    decreases Position(a.f.order, c), 2, 0
  {
    hide ValidFolder, DecodeCoder, SingleOutputs, Listed, Monotone;
    var coder := a.f.coders[c];
    InputsKept(a, b, c, coder.inputCount);
    var inputs := EvalInputs(a, c, coder.inputCount).value;
    if CapOf(a, c) != CapOf(b, c) {
      DecodeCoderMonotone(a.codec, coder, inputs, a.f.unpackSizes[c], CapOf(a, c), CapOf(b, c));
    }
  }

  lemma {:induction false} InputsKept(a: Env, b: Env, c: nat, j: nat)
    requires Raised(a, b) && c < |a.f.coders| && j <= a.f.coders[c].inputCount && EvalInputs(a, c, j).Some?
    ensures EvalInputs(b, c, j) == EvalInputs(a, c, j)
    decreases Position(a.f.order, c), 1, j
  {
    hide ValidFolder, SingleOutputs, Monotone;
    if j > 0 {
      InputsInRange(a.f, c, j - 1);
      InputsInRange(b.f, c, j - 1);
      InputsKept(a, b, c, j - 1);
      InputKept(a, b, a.f.coders[c].inputStart + j - 1);
    }
  }

  lemma {:induction false} InputKept(a: Env, b: Env, i: nat)
    requires Raised(a, b) && i < InputTotal(a.f) && InputOwners(a.f)[i] < |a.f.coders|
    requires EvalInput(a, i).Some?
    ensures EvalInput(b, i) == EvalInput(a, i)
    decreases Position(a.f.order, InputOwners(a.f)[i]), 0, 0
  {
    hide ValidFolder, SingleOutputs, Monotone;
    var source := SourceOf(a.f.bindPairs, i);
    if source.Some? {
      SourceEarlier(a.f, i, source.value);
      OutputKept(a, b, source.value);
    }
  }

  /** Any schedule of the same folder gives the same bytes. */
  lemma ScheduleIrrelevant(a: Env, b: Env)
    requires Sound(a) && Sound(b) && b == a.(f := a.f.(order := b.f.order))
    ensures EvalRoot(a) == EvalRoot(b)
  {
    OutputsAreCoders(a.f);
    if EvalRoot(a).Some? {
      OutputKept(a, b, a.f.rootOutput);
    }
    if EvalRoot(b).Some? {
      OutputKept(b, a, a.f.rootOutput);
    }
  }

  /** With monotone codecs, a folder decoded under one cap decodes alike under a larger one. */
  lemma LargerCap(a: Env, cap: nat)
    requires Sound(a) && Monotone(a.codec) && a.maxRoot <= cap && EvalRoot(a).Some?
    ensures Sound(a.(maxRoot := cap)) && EvalRoot(a.(maxRoot := cap)) == EvalRoot(a)
  {
    OutputsAreCoders(a.f);
    OutputKept(a, a.(maxRoot := cap), a.f.rootOutput);
  }

  // ----- Every coder feeds the root.

  /** The coder that consumes coder c's output. */
  function Consumer(f: Folder, c: nat): nat
    requires DestinationOf(f.bindPairs, c).Some? && DestinationOf(f.bindPairs, c).value < |InputOwners(f)|
  {
    InputOwners(f)[DestinationOf(f.bindPairs, c).value]
  }

  lemma ConsumerLater(f: Folder, c: nat)
    requires ValidFolder(f) && SingleOutputs(f) && c < |f.coders| && c != f.rootOutput
    ensures
      var d := DestinationOf(f.bindPairs, c);
      d.Some? && d.value < |InputOwners(f)| && SourceOf(f.bindPairs, d.value) == Some(c)
    ensures Consumer(f, c) < |f.coders| && Listed(f) && Position(f.order, c) < Position(f.order, Consumer(f, c))
  {
    hide Topological, PackedOk, Numbered;
    OutputsAreCoders(f);
    assert OutputBound(f.bindPairs, c);
    var d := DestinationOf(f.bindPairs, c).value;
    BindingsMatch(f.bindPairs, InputTotal(f), OutputTotal(f), d, c);
    SourceEarlier(f, d, c);
  }

  /** Following bindings from coder c leads to the root in the given number of steps. */
  ghost predicate Reaches(f: Folder, c: nat, steps: nat)
    requires ValidFolder(f) && SingleOutputs(f) && c < |f.coders|
    decreases steps
  {
    if c == f.rootOutput then steps == 0
    else
      ConsumerLater(f, c);
      steps > 0 && Reaches(f, Consumer(f, c), steps - 1)
  }

  lemma {:induction false} TreeIntoRoot(f: Folder, c: nat) returns (steps: nat)
    requires ValidFolder(f) && SingleOutputs(f) && c < |f.coders|
    ensures steps < |f.coders| && Reaches(f, c, steps)
    ensures Listed(f) && steps + Position(f.order, c) < |f.coders|
    decreases (AllListed(f); |f.coders| - Position(f.order, c))
  {
    hide ValidFolder, SingleOutputs;
    AllListed(f);
    if c == f.rootOutput {
      steps := 0;
    } else {
      ConsumerLater(f, c);
      var rest := TreeIntoRoot(f, Consumer(f, c));
      steps := rest + 1;
    }
  }

  /** Every input port is fed exactly once: by one binding or by one packed stream. */
  lemma FedExactlyOnce(f: Folder, i: nat)
    requires ValidFolder(f) && i < InputTotal(f)
    ensures (exists b :: b in f.bindPairs && b.input == i) <==> i !in f.packedInputs
    ensures forall j, k :: 0 <= j < k < |f.bindPairs| ==> f.bindPairs[j].input != i || f.bindPairs[k].input != i
    ensures forall j, k :: 0 <= j < k < |f.packedInputs| ==> f.packedInputs[j] != i || f.packedInputs[k] != i
  {
    assert InputBound(f.bindPairs, i) <==> i !in f.packedInputs;
  }

  /** A coder without a value leaves the root without one. */
  lemma {:induction false} FailureReachesRoot(env: Env, c: nat)
    requires Sound(env) && c < |env.f.coders| && EvalOutput(env, c).None?
    ensures EvalRoot(env).None?
    decreases (AllListed(env.f); |env.f.coders| - Position(env.f.order, c))
  {
    hide ValidFolder, SingleOutputs, EvalOutput;
    AllListed(env.f);
    if c != env.f.rootOutput {
      ConsumerLater(env.f, c);
      var i := DestinationOf(env.f.bindPairs, c).value;
      var d := Consumer(env.f, c);
      InputWithoutValue(env, i, d);
      FailureReachesRoot(env, d);
    }
  }

  lemma InputWithoutValue(env: Env, i: nat, d: nat)
    requires Sound(env) && i < InputTotal(env.f) && d < |env.f.coders| && InputOwners(env.f)[i] == d
    requires EvalInput(env, i).None?
    ensures EvalOutput(env, d).None?
  {
    hide ValidFolder, SingleOutputs;
    InputPlace(env.f, i, d);
    var coder := env.f.coders[d];
    MissingInput(env, d, i, coder.inputCount);
  }

  lemma InputPlace(f: Folder, i: nat, d: nat)
    requires ValidFolder(f) && i < InputTotal(f) && d < |f.coders| && InputOwners(f)[i] == d
    ensures f.coders[d].inputStart <= i < f.coders[d].inputStart + f.coders[d].inputCount
  {
    hide Owners, BindsOk, RootOk, PackedOk, Topological, PortsInRange;
    OwnerInterval(InCounts(f.coders), |f.coders|, i, d);
  }

  lemma {:induction false} MissingInput(env: Env, c: nat, i: nat, j: nat)
    requires Sound(env) && c < |env.f.coders| && j <= env.f.coders[c].inputCount
    requires env.f.coders[c].inputStart <= i < env.f.coders[c].inputStart + j
    requires i < InputTotal(env.f) && InputOwners(env.f)[i] < |env.f.coders| && EvalInput(env, i).None?
    ensures EvalInputs(env, c, j).None?
    decreases j
  {
    hide ValidFolder, SingleOutputs;
    InputsInRange(env.f, c, j - 1);
    if i < env.f.coders[c].inputStart + j - 1 {
      MissingInput(env, c, i, j - 1);
    }
  }
}
