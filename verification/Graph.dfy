/** Validation of a folder's coder graph: port ownership, bindings, the root
    output, packed inputs and the schedule. */
module Graph {
  import opened Support
  import opened Sequences
  import opened Model
  import opened Scheduling

  // ----- Ports are numbered coder by coder.

  /** The number of ports before coder k. */
  function Before(counts: seq<nat>, k: nat): nat
    requires k <= |counts|
  {
    if k == 0 then 0 else Before(counts, k - 1) + counts[k - 1]
  }

  /** The owner of every port of the first k coders. */
  function Owners(counts: seq<nat>, k: nat): (owners: seq<nat>)
    requires k <= |counts|
    ensures |owners| == Before(counts, k)
    ensures forall o :: o in owners ==> o < k
  {
    if k == 0 then [] else Owners(counts, k - 1) + Repeat(k - 1, counts[k - 1])
  }

  function Repeat(value: nat, count: nat): (s: seq<nat>)
    ensures |s| == count && forall x :: x in s ==> x == value
  {
    seq(count, _ => value)
  }

  lemma {:induction false} BeforeMonotone(counts: seq<nat>, i: nat, j: nat)
    requires i <= j <= |counts|
    ensures Before(counts, i) <= Before(counts, j)
    decreases j
  {
    if i < j {
      BeforeMonotone(counts, i, j - 1);
    }
  }

  /** A port lies in its owner's interval, and only there. */
  lemma {:induction false} OwnerInterval(counts: seq<nat>, k: nat, p: nat, i: nat)
    requires k <= |counts| && p < Before(counts, k) && i < k
    ensures Owners(counts, k)[p] == i <==> Before(counts, i) <= p < Before(counts, i + 1)
    decreases k
  {
    if p < Before(counts, k - 1) {
      if i < k - 1 {
        OwnerInterval(counts, k - 1, p, i);
      } else {
        assert Owners(counts, k)[p] in Owners(counts, k - 1);
      }
    } else {
      assert Owners(counts, k)[p] == k - 1;
      if i < k - 1 {
        BeforeMonotone(counts, i + 1, k - 1);
      }
    }
  }

  // ----- What an acceptable graph is.

  ghost predicate InputBound(binds: seq<BindPair>, i: nat) {
    exists b :: b in binds && b.input == i
  }

  ghost predicate OutputBound(binds: seq<BindPair>, o: nat) {
    exists b :: b in binds && b.output == o
  }

  predicate BindsOk(binds: seq<BindPair>, inputs: nat, outputs: nat) {
    && (forall b :: b in binds ==> b.input < inputs && b.output < outputs)
    && (forall i, j :: 0 <= i < j < |binds| ==> binds[i].input != binds[j].input)
    && (forall i, j :: 0 <= i < j < |binds| ==> binds[i].output != binds[j].output)
  }

  /** The root is the one output no binding consumes. */
  ghost predicate RootOk(binds: seq<BindPair>, outputs: nat, root: nat) {
    root < outputs && forall o: nat :: o < outputs ==> (OutputBound(binds, o) <==> o != root)
  }

  /** The packed list names every unbound input once, and no bound one. */
  ghost predicate PackedOk(binds: seq<BindPair>, inputs: nat, packed: seq<u64>) {
    && (forall i, j :: 0 <= i < j < |packed| ==> packed[i] != packed[j])
    && (forall p :: p in packed ==> p < inputs)
    && (forall i: nat :: i < inputs ==> (InputBound(binds, i) <==> i !in packed))
  }

  predicate TotalsOk(raw: RawFolder) {
    && raw.inputStreams + raw.outputStreams <= U64_MAX
    && Before(InputCounts(raw.coders), |raw.coders|) == raw.inputStreams
    && Before(OutputCounts(raw.coders), |raw.coders|) == raw.outputStreams
  }

  ghost predicate PortsOk(raw: RawFolder, root: nat, packed: seq<u64>) {
    && TotalsOk(raw)
    && BindsOk(raw.bindPairs, raw.inputStreams, raw.outputStreams)
    && RootOk(raw.bindPairs, raw.outputStreams, root)
    && PackedOk(raw.bindPairs, raw.inputStreams, packed)
    && |packed| == raw.packedStreams
    && (if raw.packedIndices.Some? then packed == raw.packedIndices.value else |packed| == 1)
  }

  /** The coder relation the bindings induce: from an output's owner to an input's owner. */
  function CoderEdges(raw: RawFolder): seq<Edge>
    requires TotalsOk(raw) && BindsOk(raw.bindPairs, raw.inputStreams, raw.outputStreams)
  {
    var inputs := Owners(InputCounts(raw.coders), |raw.coders|);
    var outputs := Owners(OutputCounts(raw.coders), |raw.coders|);
    EdgesOf(raw.bindPairs, inputs, outputs)
  }

  predicate PortsInRange(binds: seq<BindPair>, inputs: seq<nat>, outputs: seq<nat>) {
    forall b :: b in binds ==> b.input < |inputs| && b.output < |outputs|
  }

  function EdgesOf(binds: seq<BindPair>, inputs: seq<nat>, outputs: seq<nat>): (edges: seq<Edge>)
    requires PortsInRange(binds, inputs, outputs)
  {
    seq(|binds|, i requires 0 <= i < |binds| =>
      assert binds[i] in binds; Edge(outputs[binds[i].output], inputs[binds[i].input]))
  }

  ghost predicate Acceptable(raw: RawFolder) {
    exists root, packed :: PortsOk(raw, root, packed) && !Cyclic(CoderEdges(raw))
  }

  ghost predicate ValidGraph(raw: RawFolder, g: ValidatedGraph) {
    && PortsOk(raw, g.rootOutput, g.packedInputs)
    && g.bindPairs == raw.bindPairs
    && Topological(CoderEdges(raw), |raw.coders|, g.order)
  }

  /** The checkpoints of a full validation. */
  function GraphWork(raw: RawFolder): nat {
    raw.inputStreams + raw.outputStreams
    + Before(InputCounts(raw.coders), |raw.coders|) + Before(OutputCounts(raw.coders), |raw.coders|)
    + ScheduleWork(raw)
  }

  function ScheduleWork(raw: RawFolder): nat {
    |raw.coders| * (1 + |raw.bindPairs|)
  }

  // ----- Which rejections are possible.

  predicate BindingFault(e: Error) {
    || e == Format(BindInputOutOfRange) || e == Format(BindInputDuplicated)
    || e == Format(BindOutputOutOfRange) || e == Format(BindOutputDuplicated)
  }

  predicate PackedFault(e: Error) {
    e == Format(PackedOutOfRange) || e == Format(PackedDuplicated) || e == Format(PackedAlreadyBound)
  }

  /** What the counts of a parsed folder rule out. */
  predicate CountFault(e: Error) {
    e.Format? && CountDetail(e.detail)
  }

  predicate CountDetail(d: Detail) {
    || d.PortCountOverflows? || d.OwnerTotalsInconsistent? || d.PackedCountInconsistent?
    || d.NoRoot? || d.MultipleRoots? || d.NoUnboundInput? || d.InputsNotPartitioned?
  }

  predicate GraphFault(e: Error) {
    BindingFault(e) || PackedFault(e) || CountFault(e) || e == Format(GraphHasCycle)
  }

  /** One binding fewer than outputs; every input is bound or packed. */
  predicate CountsFit(raw: RawFolder) {
    && TotalsOk(raw)
    && |raw.bindPairs| + 1 == raw.outputStreams <= raw.inputStreams
    && raw.packedStreams == raw.inputStreams - |raw.bindPairs|
    && (if raw.packedIndices.Some? then |raw.packedIndices.value| == raw.packedStreams else raw.packedStreams == 1)
  }

  /** How many flags are set. */
  function Used(flags: seq<bool>): (n: nat)
    ensures n <= |flags|
  {
    SetBefore(flags, |flags|)
  }

  lemma {:induction false} FlipBefore(flags: seq<bool>, i: nat, k: nat)
    requires i < |flags| && !flags[i] && k <= |flags|
    ensures SetBefore(flags[i := true], k) == SetBefore(flags, k) + if i < k then 1 else 0
    decreases k
  {
    if k > 0 {
      FlipBefore(flags, i, k - 1);
    }
  }

  lemma UsedFlip(flags: seq<bool>, i: nat)
    requires i < |flags| && !flags[i]
    ensures Used(flags[i := true]) == Used(flags) + 1
  {
    FlipBefore(flags, i, |flags|);
  }

  lemma {:induction false} NoneBefore(flags: seq<bool>, k: nat)
    requires k <= |flags| && forall i :: 0 <= i < |flags| ==> !flags[i]
    ensures SetBefore(flags, k) == 0
    decreases k
  {
    if k > 0 {
      NoneBefore(flags, k - 1);
    }
  }

  lemma UsedNone(flags: seq<bool>)
    requires forall i :: 0 <= i < |flags| ==> !flags[i]
    ensures Used(flags) == 0
  {
    NoneBefore(flags, |flags|);
  }

  lemma {:induction false} AllBefore(flags: seq<bool>, k: nat)
    requires AllUsed(flags) && k <= |flags|
    ensures SetBefore(flags, k) == k
    decreases k
  {
    if k > 0 {
      AllBefore(flags, k - 1);
    }
  }

  lemma UsedAll(flags: seq<bool>)
    requires AllUsed(flags)
    ensures Used(flags) == |flags|
  {
    AllBefore(flags, |flags|);
  }

  lemma UsedTwoLeft(flags: seq<bool>)
    requires TwoUnused(flags)
    ensures Used(flags) + 2 <= |flags|
  {
    var o, p :| 0 <= o < p < |flags| && !flags[o] && !flags[p];
    UsedFlip(flags, o);
    UsedFlip(flags[o := true], p);
  }

  lemma {:induction false} UsedDisjoint(a: seq<bool>, b: seq<bool>, k: nat)
    requires k <= |a| == |b| && forall i :: 0 <= i < |a| ==> !(a[i] && b[i])
    ensures SetBefore(a, k) + SetBefore(b, k) <= k
    decreases k
  {
    if k > 0 {
      UsedDisjoint(a, b, k - 1);
    }
  }

  lemma UsedNeither(a: seq<bool>, b: seq<bool>, i: nat)
    requires |a| == |b| && forall j :: 0 <= j < |a| ==> !(a[j] && b[j])
    requires i < |a| && !a[i] && !b[i]
    ensures Used(a) + Used(b) < |a|
  {
    UsedFlip(a, i);
    UsedDisjoint(a[i := true], b, |a|);
  }

  /** Counting alone leaves exactly one output unbound, and some input. */
  lemma OneRootLeft(inputs: seq<bool>, outputs: seq<bool>)
    requires Used(inputs) < |inputs| && Used(outputs) + 1 == |outputs|
    ensures !AllUsed(outputs) && !TwoUnused(outputs) && !AllUsed(inputs)
  {
    if AllUsed(outputs) {
      UsedAll(outputs);
    }
    if AllUsed(inputs) {
      UsedAll(inputs);
    }
    if TwoUnused(outputs) {
      UsedTwoLeft(outputs);
    }
  }

  // ----- Port ownership.

  method PushRepeated(owners: seq<nat>, value: nat, count: nat) returns (longer: seq<nat>)
    ensures longer == owners + Repeat(value, count)
  {
    longer := owners;
    for i := 0 to count
      invariant longer == owners + Repeat(value, i)
    {
      longer := longer + [value];
    }
  }

  method ListOwners(coders: seq<RawCoder>, control: ParseControl) returns (r: Result<(seq<nat>, seq<nat>)>)
    modifies control
    ensures r.Success? ==>
      && r.value == (Owners(InputCounts(coders), |coders|), Owners(OutputCounts(coders), |coders|))
      && control.Charged(Before(InputCounts(coders), |coders|) + Before(OutputCounts(coders), |coders|))
    ensures r.Failure? ==>
      || (Interrupted(r) && control.stopped)
      || (r == Failure(Format(PortCountOverflows)) && exists c :: c in coders && c.inputs + c.outputs > U64_MAX)
    ensures old(control.Ample(Before(InputCounts(coders), |coders|) + Before(OutputCounts(coders), |coders|))) ==>
      !Interrupted(r)
  {
    ghost var ins, outs := InputCounts(coders), OutputCounts(coders);
    var inputOwners: seq<nat>, outputOwners: seq<nat> := [], [];
    for index := 0 to |coders|
      invariant inputOwners == Owners(ins, index) && outputOwners == Owners(outs, index)
      invariant control.Charged(Before(ins, index) + Before(outs, index))
    {
      var coder := coders[index];
      if coder.inputs + coder.outputs > U64_MAX {
        assert coder in coders;
        return Failure(Format(PortCountOverflows));
      }
      BeforeMonotone(ins, index + 1, |coders|);
      BeforeMonotone(outs, index + 1, |coders|);
      var _ :- control.Checkpoint(coder.inputs + coder.outputs);
      inputOwners := PushRepeated(inputOwners, index, coder.inputs);
      outputOwners := PushRepeated(outputOwners, index, coder.outputs);
    }
    return Success((inputOwners, outputOwners));
  }

  lemma {:induction false} OneOfTotal(counts: seq<nat>, k: nat, i: nat)
    requires i < k <= |counts|
    ensures counts[i] <= Before(counts, k)
    decreases k
  {
    if i < k - 1 {
      OneOfTotal(counts, k - 1, i);
    }
  }

  // ----- Bindings.

  method ValidateBindPair(pair: BindPair, inputUsed: array<bool>, outputUsed: array<bool>) returns (r: Result<BindPair>)
    requires inputUsed != outputUsed
    modifies inputUsed, outputUsed
    ensures r.Success? ==>
      && r.value == pair && pair.input < inputUsed.Length && pair.output < outputUsed.Length
      && !old(inputUsed[..])[pair.input] && inputUsed[..] == old(inputUsed[..])[pair.input := true]
      && !old(outputUsed[..])[pair.output] && outputUsed[..] == old(outputUsed[..])[pair.output := true]
    ensures r.Failure? ==>
      || (pair.input >= inputUsed.Length && r.error == Format(BindInputOutOfRange))
      || (pair.input < inputUsed.Length && old(inputUsed[..])[pair.input] && r.error == Format(BindInputDuplicated))
      || (pair.output >= outputUsed.Length && r.error == Format(BindOutputOutOfRange))
      || (pair.output < outputUsed.Length && old(outputUsed[..])[pair.output]
          && r.error == Format(BindOutputDuplicated))
  {
    if pair.input >= inputUsed.Length {
      return Failure(Format(BindInputOutOfRange));
    }
    if inputUsed[pair.input] {
      return Failure(Format(BindInputDuplicated));
    }
    inputUsed[pair.input] := true;
    if pair.output >= outputUsed.Length {
      return Failure(Format(BindOutputOutOfRange));
    }
    if outputUsed[pair.output] {
      return Failure(Format(BindOutputDuplicated));
    }
    outputUsed[pair.output] := true;
    return Success(pair);
  }

  /** The flags say exactly which ports the bindings use. */
  ghost predicate Marked(binds: seq<BindPair>, inputs: seq<bool>, outputs: seq<bool>) {
    && (forall i :: 0 <= i < |inputs| ==> (inputs[i] <==> InputBound(binds, i)))
    && (forall o :: 0 <= o < |outputs| ==> (outputs[o] <==> OutputBound(binds, o)))
  }

  lemma MarkOne(binds: seq<BindPair>, pair: BindPair, inputs: seq<bool>, outputs: seq<bool>)
    requires Marked(binds, inputs, outputs) && BindsOk(binds, |inputs|, |outputs|)
    requires pair.input < |inputs| && pair.output < |outputs| && !inputs[pair.input] && !outputs[pair.output]
    ensures Marked(binds + [pair], inputs[pair.input := true], outputs[pair.output := true])
    ensures BindsOk(binds + [pair], |inputs|, |outputs|)
  {
    forall i | 0 <= i < |inputs| ensures InputBound(binds + [pair], i) <==> (InputBound(binds, i) || i == pair.input) {
      BoundBySplit(binds, pair, i);
    }
    forall o | 0 <= o < |outputs|
      ensures OutputBound(binds + [pair], o) <==> (OutputBound(binds, o) || o == pair.output) {
      BoundBySplit(binds, pair, o);
    }
    DistinctMore(binds, pair);
  }

  lemma BoundBySplit(binds: seq<BindPair>, pair: BindPair, p: nat)
    ensures InputBound(binds + [pair], p) <==> (InputBound(binds, p) || p == pair.input)
    ensures OutputBound(binds + [pair], p) <==> (OutputBound(binds, p) || p == pair.output)
  {
    assert pair in binds + [pair];
    if InputBound(binds, p) {
      var b :| b in binds && b.input == p;
      assert b in binds + [pair];
    }
    if OutputBound(binds, p) {
      var b :| b in binds && b.output == p;
      assert b in binds + [pair];
    }
  }

  lemma DistinctMore(binds: seq<BindPair>, pair: BindPair)
    requires !InputBound(binds, pair.input) && !OutputBound(binds, pair.output)
    ensures forall b :: b in binds ==> b.input != pair.input && b.output != pair.output
  {
  }

  lemma BoundTwice(binds: seq<BindPair>, k: nat)
    requires k < |binds| && (InputBound(binds[..k], binds[k].input) || OutputBound(binds[..k], binds[k].output))
    ensures forall inputs, outputs :: !BindsOk(binds, inputs, outputs)
  {
    if InputBound(binds[..k], binds[k].input) {
      var b :| b in binds[..k] && b.input == binds[k].input;
      var j :| 0 <= j < k && binds[j] == b;
    } else {
      var b :| b in binds[..k] && b.output == binds[k].output;
      var j :| 0 <= j < k && binds[j] == b;
    }
  }

  method ValidateBinds(binds: seq<BindPair>, inputUsed: array<bool>, outputUsed: array<bool>)
      returns (r: Result<seq<BindPair>>)
    requires inputUsed != outputUsed
    requires forall i :: 0 <= i < inputUsed.Length ==> !inputUsed[i]
    requires forall o :: 0 <= o < outputUsed.Length ==> !outputUsed[o]
    modifies inputUsed, outputUsed
    ensures r.Success? ==>
      && r.value == binds && BindsOk(binds, inputUsed.Length, outputUsed.Length)
      && Marked(binds, inputUsed[..], outputUsed[..])
      && Used(inputUsed[..]) == Used(outputUsed[..]) == |binds|
    ensures r.Failure? ==> BindingFault(r.error) && !BindsOk(binds, inputUsed.Length, outputUsed.Length)
  {
    hide BindsOk, Marked, Used;
    var pairs: seq<BindPair> := [];
    NothingBound(inputUsed[..], outputUsed[..]);
    UsedNone(inputUsed[..]);
    UsedNone(outputUsed[..]);
    for k := 0 to |binds|
      invariant pairs == binds[..k] && BindsOk(pairs, inputUsed.Length, outputUsed.Length)
      invariant Marked(pairs, inputUsed[..], outputUsed[..])
      invariant Used(inputUsed[..]) == Used(outputUsed[..]) == k
    {
      ghost var ins, outs := inputUsed[..], outputUsed[..];
      var checked := ValidateBindPair(binds[k], inputUsed, outputUsed);
      if checked.Failure? {
        BadPair(binds, k, ins, outs);
        return Failure(checked.error);
      }
      MarkOne(pairs, binds[k], ins, outs);
      UsedFlip(ins, binds[k].input);
      UsedFlip(outs, binds[k].output);
      pairs := pairs + [checked.value];
    }
    assert binds[..|binds|] == binds;
    return Success(pairs);
  }

  lemma NothingBound(inputs: seq<bool>, outputs: seq<bool>)
    requires (forall i :: 0 <= i < |inputs| ==> !inputs[i]) && forall o :: 0 <= o < |outputs| ==> !outputs[o]
    ensures Marked([], inputs, outputs) && BindsOk([], |inputs|, |outputs|)
  {
  }

  lemma BadPair(binds: seq<BindPair>, k: nat, inputs: seq<bool>, outputs: seq<bool>)
    requires k < |binds| && Marked(binds[..k], inputs, outputs)
    requires
      || binds[k].input >= |inputs| || binds[k].output >= |outputs|
      || inputs[binds[k].input] || outputs[binds[k].output]
    ensures !BindsOk(binds, |inputs|, |outputs|)
  {
    assert binds[k] in binds;
    if binds[k].input < |inputs| && binds[k].output < |outputs| {
      BoundTwice(binds, k);
    }
  }

  // ----- The root output.

  predicate AllUsed(flags: seq<bool>) {
    forall o :: 0 <= o < |flags| ==> flags[o]
  }

  predicate OnlyUnused(flags: seq<bool>, root: nat) {
    root < |flags| && forall o :: 0 <= o < |flags| ==> (flags[o] <==> o != root)
  }

  predicate TwoUnused(flags: seq<bool>) {
    exists o, p :: 0 <= o < p < |flags| && !flags[o] && !flags[p]
  }

  method FindRoot(outputUsed: array<bool>) returns (r: Result<nat>)
    ensures r.Success? ==> OnlyUnused(outputUsed[..], r.value)
    ensures r.Failure? ==>
      || (r.error == Format(NoRoot) && AllUsed(outputUsed[..]))
      || (r.error == Format(MultipleRoots) && TwoUnused(outputUsed[..]))
  {
    var root: Option<nat> := None;
    for index := 0 to outputUsed.Length
      invariant root.None? ==> AllUsed(outputUsed[..index])
      invariant root.Some? ==> OnlyUnused(outputUsed[..index], root.value)
    {
      if !outputUsed[index] {
        if root.Some? {
          assert !outputUsed[..][root.value] && !outputUsed[..][index];
          return Failure(Format(MultipleRoots));
        }
        root := Some(index);
      }
    }
    assert outputUsed[..outputUsed.Length] == outputUsed[..];
    if root.None? {
      return Failure(Format(NoRoot));
    }
    return Success(root.value);
  }

  lemma RootFound(binds: seq<BindPair>, inputs: seq<bool>, outputs: seq<bool>, root: nat)
    requires Marked(binds, inputs, outputs) && OnlyUnused(outputs, root)
    ensures RootOk(binds, |outputs|, root)
  {
  }

  lemma NoSingleRoot(binds: seq<BindPair>, inputs: seq<bool>, outputs: seq<bool>, root: nat)
    requires Marked(binds, inputs, outputs) && (AllUsed(outputs) || TwoUnused(outputs))
    ensures !RootOk(binds, |outputs|, root)
  {
    if root < |outputs| {
      if AllUsed(outputs) {
        assert OutputBound(binds, root);
      } else {
        var o, p :| 0 <= o < p < |outputs| && !outputs[o] && !outputs[p];
        assert !OutputBound(binds, o) && !OutputBound(binds, p);
      }
    }
  }

  // ----- Packed inputs.

  predicate FirstUnused(flags: seq<bool>, i: nat) {
    i < |flags| && !flags[i] && AllUsed(flags[..i])
  }

  method ListPacked(indices: Option<seq<u64>>, inputUsed: array<bool>) returns (r: Result<seq<u64>>)
    requires inputUsed.Length <= U64_MAX
    ensures indices.Some? ==> r == Success(indices.value)
    ensures indices.None? && r.Success? ==> |r.value| == 1 && FirstUnused(inputUsed[..], r.value[0])
    ensures r.Failure? ==> r == Failure(Format(NoUnboundInput)) && indices.None? && AllUsed(inputUsed[..])
  {
    if indices.Some? {
      return Success(indices.value);
    }
    for index := 0 to inputUsed.Length
      invariant AllUsed(inputUsed[..index])
    {
      if !inputUsed[index] {
        assert inputUsed[..][..index] == inputUsed[..index];
        return Success([index]);
      }
    }
    assert inputUsed[..inputUsed.Length] == inputUsed[..];
    return Failure(Format(NoUnboundInput));
  }

  /** The packed list is duplicate-free, in range and complements the used flags. */
  predicate Complements(packed: seq<u64>, used: seq<bool>) {
    && (forall i, j :: 0 <= i < j < |packed| ==> packed[i] != packed[j])
    && (forall p :: p in packed ==> p < |used|)
    && (forall i :: 0 <= i < |used| ==> (used[i] <==> i !in packed))
  }

  method CheckPacked(packed: seq<u64>, inputUsed: array<bool>) returns (r: Result<()>)
    ensures r.Success? <==> Complements(packed, inputUsed[..])
    ensures r.Failure? ==>
      || PackedFault(r.error)
      || (r.error == Format(InputsNotPartitioned) && Used(inputUsed[..]) + |packed| < inputUsed.Length)
  {
    hide Used;
    var packedUsed := new bool[inputUsed.Length](_ => false);
    UsedNone(packedUsed[..]);
    for k := 0 to |packed|
      invariant forall i :: 0 <= i < inputUsed.Length ==> (packedUsed[i] <==> i in packed[..k])
      invariant forall p :: p in packed[..k] ==> p < inputUsed.Length && !inputUsed[p]
      invariant forall i, j :: 0 <= i < j < k ==> packed[i] != packed[j]
      invariant Used(packedUsed[..]) == k
    {
      var index := packed[k];
      assert index in packed;
      if index >= inputUsed.Length {
        return Failure(Format(PackedOutOfRange));
      }
      if packedUsed[index] {
        return Failure(Format(PackedDuplicated));
      }
      if inputUsed[index] {
        return Failure(Format(PackedAlreadyBound));
      }
      UsedFlip(packedUsed[..], index);
      ghost var before := packedUsed[..];
      packedUsed[index] := true;
      assert packedUsed[..] == before[index := true];
      assert packed[..k + 1] == packed[..k] + [index];
    }
    assert packed[..|packed|] == packed;
    for i := 0 to inputUsed.Length
      invariant forall j :: 0 <= j < i ==> (inputUsed[j] <==> j !in packed)
    {
      if inputUsed[i] == packedUsed[i] {
        UsedNeither(inputUsed[..], packedUsed[..], i);
        return Failure(Format(InputsNotPartitioned));
      }
    }
    return Success(());
  }

  lemma PackedFound(binds: seq<BindPair>, inputs: seq<bool>, outputs: seq<bool>, packed: seq<u64>)
    requires Marked(binds, inputs, outputs)
    ensures PackedOk(binds, |inputs|, packed) <==> Complements(packed, inputs)
  {
    if PackedOk(binds, |inputs|, packed) {
      forall i | 0 <= i < |inputs| ensures inputs[i] <==> i !in packed {
        assert InputBound(binds, i) <==> i !in packed;
      }
    }
  }

  // ----- The coder relation, with its indegrees.

  method InduceEdges(coderCount: nat, inputOwners: seq<nat>, outputOwners: seq<nat>, binds: seq<BindPair>)
      returns (r: Result<(seq<Edge>, seq<nat>)>)
    requires forall o :: o in inputOwners ==> o < coderCount
    requires forall o :: o in outputOwners ==> o < coderCount
    ensures r.Success? ==>
      && PortsInRange(binds, inputOwners, outputOwners)
      && r.value.0 == EdgesOf(binds, inputOwners, outputOwners)
      && InRange(r.value.0, coderCount) && Counted(r.value.0, coderCount, r.value.1, 0, {}, 0)
    ensures r.Failure? ==> r.error.Format? && !PortsInRange(binds, inputOwners, outputOwners)
  {
    hide Counted;
    var indegree, edges: seq<Edge> := Repeat(0, coderCount), [];
    NoEdges(coderCount);
    for k := 0 to |binds|
      invariant |indegree| == coderCount && PortsInRange(binds[..k], inputOwners, outputOwners)
      invariant edges == EdgesOf(binds[..k], inputOwners, outputOwners)
      invariant InRange(edges, coderCount) && Counted(edges, coderCount, indegree, 0, {}, 0)
    {
      var pair := binds[k];
      assert pair in binds;
      if pair.output >= |outputOwners| {
        return Failure(Format(BindOutputOutOfRange));
      }
      if pair.input >= |inputOwners| {
        return Failure(Format(BindInputOutOfRange));
      }
      var edge := Edge(outputOwners[pair.output], inputOwners[pair.input]);
      assert inputOwners[pair.input] in inputOwners && outputOwners[pair.output] in outputOwners;
      OneMoreEdge(edges, coderCount, indegree, edge);
      indegree := indegree[edge.destination := indegree[edge.destination] + 1];
      edges := edges + [edge];
    }
    assert binds[..|binds|] == binds;
    return Success((edges, indegree));
  }

  lemma NoEdges(n: nat)
    ensures Counted([], n, Repeat(0, n), 0, {}, 0)
  {
  }

  lemma OneMoreEdge(edges: seq<Edge>, n: nat, indegree: seq<nat>, e: Edge)
    requires Counted(edges, n, indegree, 0, {}, 0) && e.destination < n
    ensures |indegree| == n && Counted(edges + [e], n, indegree[e.destination := indegree[e.destination] + 1], 0, {}, 0)
  {
    forall c: nat | c < n
      ensures Open(edges + [e], |edges + [e]|, 0, {}, 0, c) == indegree[c] + if c == e.destination then 1 else 0
    {
      OpenPrefix(edges, e, |edges|, c);
    }
  }

  lemma {:induction false} OpenPrefix(edges: seq<Edge>, e: Edge, m: nat, c: nat)
    requires m <= |edges|
    ensures Open(edges + [e], m, 0, {}, 0, c) == Open(edges, m, 0, {}, 0, c)
    decreases m
  {
    if m > 0 {
      OpenPrefix(edges, e, m - 1, c);
    }
  }

  // ----- The whole validation.

  /** Bindings, root and packed list, over the totals already checked. */
  method ValidatePorts(raw: RawFolder) returns (r: Result<(nat, seq<u64>)>)
    requires TotalsOk(raw)
    ensures r.Success? ==> PortsOk(raw, r.value.0, r.value.1)
    ensures r.Failure? ==> GraphFault(r.error) && forall root: nat, packed :: !PortsOk(raw, root, packed)
    ensures r.Failure? && CountsFit(raw) ==> !CountFault(r.error)
  {
    hide TotalsOk, BindsOk, Marked, RootOk, PackedOk, Complements, Used, AllUsed, TwoUnused;
    var inputUsed := new bool[raw.inputStreams](_ => false);
    var outputUsed := new bool[raw.outputStreams](_ => false);
    var _ :- ValidateBinds(raw.bindPairs, inputUsed, outputUsed);
    ghost var ins, outs := inputUsed[..], outputUsed[..];
    if CountsFit(raw) {
      OneRootLeft(ins, outs);
    }
    var root := FindRoot(outputUsed);
    if root.Failure? {
      forall other: nat ensures !RootOk(raw.bindPairs, |outs|, other) {
        NoSingleRoot(raw.bindPairs, ins, outs, other);
      }
      return Failure(root.error);
    }
    RootFound(raw.bindPairs, ins, outs, root.value);
    var packed := ListPacked(raw.packedIndices, inputUsed);
    if packed.Failure? {
      AllInputsBound(raw.bindPairs, ins, outs);
      return Failure(packed.error);
    }
    PackedFound(raw.bindPairs, ins, outs, packed.value);
    if |packed.value| != raw.packedStreams {
      return Failure(Format(PackedCountInconsistent));
    }
    var checked := CheckPacked(packed.value, inputUsed);
    if checked.Failure? {
      SamePacked(raw, ins, outs, packed.value);
      return Failure(checked.error);
    }
    return Success((root.value, packed.value));
  }

  lemma AllInputsBound(binds: seq<BindPair>, inputs: seq<bool>, outputs: seq<bool>)
    requires Marked(binds, inputs, outputs) && AllUsed(inputs)
    ensures forall packed: seq<u64> :: PackedOk(binds, |inputs|, packed) ==> |packed| != 1
  {
    forall packed: seq<u64> | |packed| == 1 ensures !PackedOk(binds, |inputs|, packed) {
      var p := packed[0];
      assert p in packed;
      if p < |inputs| {
        assert InputBound(binds, p);
      }
    }
  }

  lemma OnlyCandidate(inputs: seq<bool>, packed: seq<u64>, other: seq<u64>)
    requires |packed| == 1 && FirstUnused(inputs, packed[0])
    ensures Complements(other, inputs) && |other| == 1 ==> other == packed
  {
    if Complements(other, inputs) && |other| == 1 {
      assert packed[0] in other;
      assert other == [other[0]];
    }
  }

  /** Without a list, the first unbound input is the only candidate. */
  lemma SamePacked(raw: RawFolder, inputs: seq<bool>, outputs: seq<bool>, packed: seq<u64>)
    requires |inputs| == raw.inputStreams && Marked(raw.bindPairs, inputs, outputs)
    requires !Complements(packed, inputs)
    requires raw.packedIndices.Some? ==> packed == raw.packedIndices.value
    requires raw.packedIndices.None? ==> |packed| == 1 && FirstUnused(inputs, packed[0])
    ensures forall root: nat, other :: !PortsOk(raw, root, other)
  {
    forall other: seq<u64> | raw.packedIndices.None?
      ensures Complements(other, inputs) && |other| == 1 ==> other == packed {
      OnlyCandidate(inputs, packed, other);
    }
    forall root: nat, other ensures !PortsOk(raw, root, other) {
      PackedFound(raw.bindPairs, inputs, outputs, other);
    }
  }

  /** Ports, then the schedule of the relation they induce. */
  method ValidateConnections(raw: RawFolder, inputOwners: seq<nat>, outputOwners: seq<nat>, control: ParseControl)
      returns (r: Result<ValidatedGraph>)
    requires TotalsOk(raw)
    requires inputOwners == Owners(InputCounts(raw.coders), |raw.coders|)
      && outputOwners == Owners(OutputCounts(raw.coders), |raw.coders|)
    modifies control
    ensures r.Success? ==> ValidGraph(raw, r.value) && control.Charged(ScheduleWork(raw))
    ensures r.Failure? ==> (Interrupted(r) && control.stopped) || (GraphFault(r.error) && !Acceptable(raw))
    ensures r.Failure? && CountsFit(raw) ==> !CountFault(r.error)
    ensures old(control.Ample(ScheduleWork(raw))) ==> !Interrupted(r)
  {
    hide BindsOk, RootOk, PackedOk, Topological, Cyclic, Counted, InRange, CountsFit, TotalsOk, GraphFault;
    hide CountFault, Owners;
    Faults();
    var ports := ValidatePorts(raw);
    if ports.Failure? {
      NoPorts(raw);
      return Failure(ports.error);
    }
    TotalsMatch(raw);
    var induced := InduceEdges(|raw.coders|, inputOwners, outputOwners, raw.bindPairs);
    BindsInRange(raw, inputOwners, outputOwners);
    var (edges, indegree) := induced.value;
    var order :- Schedule(edges, |raw.coders|, indegree, control);
    return Success(ValidatedGraph(raw.bindPairs, ports.value.1, ports.value.0, order));
  }

  lemma NoPorts(raw: RawFolder)
    requires forall root: nat, packed: seq<u64> :: !PortsOk(raw, root, packed)
    ensures !Acceptable(raw)
  {
    hide PortsOk;
  }

  lemma TotalsMatch(raw: RawFolder)
    requires TotalsOk(raw)
    ensures |Owners(InputCounts(raw.coders), |raw.coders|)| == raw.inputStreams
    ensures |Owners(OutputCounts(raw.coders), |raw.coders|)| == raw.outputStreams
  {
  }

  method ValidateFolderGraph(raw: RawFolder, control: ParseControl) returns (r: Result<ValidatedGraph>)
    modifies control
    ensures r.Success? ==> ValidGraph(raw, r.value) && control.Charged(GraphWork(raw))
    ensures r.Success? ==>
      GraphWork(raw) == 2 * (raw.inputStreams + raw.outputStreams) + |raw.coders| * (1 + |raw.bindPairs|)
    ensures r.Failure? ==> (Interrupted(r) && control.stopped) || (GraphFault(r.error) && !Acceptable(raw))
    ensures r.Failure? && CountsFit(raw) ==> !CountFault(r.error)
    ensures old(control.Ample(GraphWork(raw))) ==> !Interrupted(r)
  {
    hide Acceptable, CountsFit, GraphFault, CountFault, Owners, ValidGraph, Before, InputCounts, OutputCounts,
         ScheduleWork;
    OwnersCounted(raw.coders);
    WorkAddsUp(raw);
    Faults();
    TotalsOfFit(raw);
    if raw.inputStreams + raw.outputStreams > U64_MAX {
      TotalsOfAcceptable(raw);
      return Failure(Format(PortCountOverflows));
    }
    var _ :- control.Checkpoint(raw.inputStreams + raw.outputStreams);
    var owners := ListOwners(raw.coders, control);
    if owners.Failure? {
      PortCountTooLarge(raw, owners.error);
      return Failure(owners.error);
    }
    var (inputOwners, outputOwners) := owners.value;
    if |inputOwners| != raw.inputStreams || |outputOwners| != raw.outputStreams {
      TotalsOfAcceptable(raw);
      return Failure(Format(OwnerTotalsInconsistent));
    }
    r := ValidateConnections(raw, inputOwners, outputOwners, control);
  }

  lemma WorkAddsUp(raw: RawFolder)
    ensures TotalsOk(raw) ==>
      GraphWork(raw) == 2 * (raw.inputStreams + raw.outputStreams) + |raw.coders| * (1 + |raw.bindPairs|)
  {
  }

  lemma OwnersCounted(coders: seq<RawCoder>)
    ensures |Owners(InputCounts(coders), |coders|)| == Before(InputCounts(coders), |coders|)
    ensures |Owners(OutputCounts(coders), |coders|)| == Before(OutputCounts(coders), |coders|)
  {
  }

  lemma TotalsOfAcceptable(raw: RawFolder)
    ensures Acceptable(raw) ==> TotalsOk(raw)
  {
  }

  lemma Faults()
    ensures forall e :: Interruption(e) ==> !CountFault(e) && !GraphFault(e)
    ensures GraphFault(Format(GraphHasCycle)) && !CountFault(Format(GraphHasCycle))
    ensures GraphFault(Format(PortCountOverflows)) && GraphFault(Format(OwnerTotalsInconsistent))
  {
  }

  lemma TotalsOfFit(raw: RawFolder)
    ensures CountsFit(raw) ==> TotalsOk(raw)
  {
  }

  lemma PortCountTooLarge(raw: RawFolder, e: Error)
    requires e == Format(PortCountOverflows) ==> exists c :: c in raw.coders && c.inputs + c.outputs > U64_MAX
    ensures e == Format(PortCountOverflows) ==> !Acceptable(raw) && !CountsFit(raw)
  {
    if e == Format(PortCountOverflows) {
      var c :| c in raw.coders && c.inputs + c.outputs > U64_MAX;
      var i :| 0 <= i < |raw.coders| && raw.coders[i] == c;
      OneOfTotal(InputCounts(raw.coders), |raw.coders|, i);
      OneOfTotal(OutputCounts(raw.coders), |raw.coders|, i);
    }
  }

  lemma BindsInRange(raw: RawFolder, inputOwners: seq<nat>, outputOwners: seq<nat>)
    requires BindsOk(raw.bindPairs, |inputOwners|, |outputOwners|)
    ensures PortsInRange(raw.bindPairs, inputOwners, outputOwners)
  {
  }

  lemma ValidMeansAcceptable(raw: RawFolder, g: ValidatedGraph)
    requires ValidGraph(raw, g)
    ensures Acceptable(raw)
  {
    var edges := CoderEdges(raw);
    forall e | e in edges ensures e.source < |raw.coders| && e.destination < |raw.coders| {
      EdgeInRange(raw, e);
    }
    OrderedMeansAcyclic(edges, |raw.coders|, g.order);
  }

  lemma EdgeInRange(raw: RawFolder, e: Edge)
    requires TotalsOk(raw) && BindsOk(raw.bindPairs, raw.inputStreams, raw.outputStreams) && e in CoderEdges(raw)
    ensures e.source < |raw.coders| && e.destination < |raw.coders|
  {
    var inputs := Owners(InputCounts(raw.coders), |raw.coders|);
    var outputs := Owners(OutputCounts(raw.coders), |raw.coders|);
    var i :| 0 <= i < |raw.bindPairs| && CoderEdges(raw)[i] == e;
    assert raw.bindPairs[i] in raw.bindPairs;
    assert e.source == outputs[raw.bindPairs[i].output] && e.source in outputs;
    assert e.destination == inputs[raw.bindPairs[i].input] && e.destination in inputs;
  }
}
