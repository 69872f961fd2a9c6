/** What the port buffers hold while a schedule runs, and what one coder's turn
    does to them. */
module Ports {
  import opened Support
  import opened Scheduling
  import opened Graph
  import opened Folders
  import opened Evaluation

  type Slots = seq<Option<Bytes>>

  // ----- The buffers after the coders in `done` have run.

  /** An input port is empty once consumed or while its source has not run. */
  ghost function InputHolds(env: Env, done: set<nat>, i: nat): Option<Bytes>
    requires Sound(env) && i < InputTotal(env.f) && InputOwners(env.f)[i] in env.f.order
  {
    var source := SourceOf(env.f.bindPairs, i);
    if InputOwners(env.f)[i] in done then None
    else if source.None? || source.value in done then EvalInput(env, i)
    else None
  }

  ghost predicate OwnersListed(env: Env) {
    forall i: nat :: i < InputTotal(env.f) ==> InputOwners(env.f)[i] in env.f.order
  }

  ghost predicate Inputs(env: Env, done: set<nat>, ports: Slots)
    requires Sound(env)
  {
    && OwnersListed(env)
    && |ports| == InputTotal(env.f)
    && forall i :: 0 <= i < |ports| ==> ports[i] == InputHolds(env, done, i)
  }

  /** A binding is used up when its output is delivered. */
  ghost predicate Destinations(env: Env, done: set<nat>, targets: seq<Option<nat>>) {
    && |targets| == |env.f.coders|
    && forall o :: 0 <= o < |targets| ==> targets[o] == if o in done then None else DestinationOf(env.f.bindPairs, o)
  }

  /** Only the root output is ever kept. */
  ghost predicate Outputs(env: Env, done: set<nat>, outs: Slots)
    requires Sound(env)
  {
    && |outs| == |env.f.coders|
    && forall o :: 0 <= o < |outs| ==>
      outs[o] == if o == env.f.rootOutput && o in done then EvalOutput(env, o) else None
  }

  /** The coders that ran are a prefix of the schedule, and all have a value. */
  ghost predicate Ran(env: Env, k: nat, done: set<nat>)
    requires Sound(env)
  {
    && k <= |env.f.order|
    && done == Members(env.f.order[..k])
    && forall c :: c in done ==> c < |env.f.coders| && EvalOutput(env, c).Some?
  }

  lemma EveryOwnerListed(env: Env)
    requires Sound(env)
    ensures OwnersListed(env)
  {
    hide ValidFolder, SingleOutputs, Owners;
    forall i: nat | i < InputTotal(env.f) ensures InputOwners(env.f)[i] in env.f.order {
      assert InputOwners(env.f)[i] in InputOwners(env.f);
    }
  }

  // ----- The order of the schedule, seen from coder c at position k.

  lemma PositionDone(order: seq<nat>, k: nat, d: nat)
    requires Distinct(order) && k <= |order| && d in order
    ensures d in Members(order[..k]) <==> Position(order, d) < k
  {
    var p := Position(order, d);
    if p < k {
      assert order[..k][p] == d;
    }
    if d in order[..k] {
      var q :| 0 <= q < k && order[..k][q] == d;
      PositionUnique(order, q);
    }
  }

  lemma SourcesRan(env: Env, k: nat, done: set<nat>, i: nat)
    requires Sound(env) && Ran(env, k, done) && k < |env.f.order|
    requires i < InputTotal(env.f) && InputOwners(env.f)[i] == env.f.order[k]
    ensures SourceOf(env.f.bindPairs, i).Some? ==> SourceOf(env.f.bindPairs, i).value in done
    ensures env.f.order[k] !in done && EvalInput(env, i).Some?
    ensures InputHolds(env, done, i) == EvalInput(env, i)
  {
    hide ValidFolder, SingleOutputs, Listed, EvalOutput;
    AllListed(env.f);
    var c := env.f.order[k];
    PositionUnique(env.f.order, k);
    PositionDone(env.f.order, k, c);
    var source := SourceOf(env.f.bindPairs, i);
    if source.Some? {
      SourceEarlier(env.f, i, source.value);
      PositionDone(env.f.order, k, source.value);
    }
  }

  /** The contents of j full ports from `start` on, in port order. */
  function Taken(ports: Slots, start: nat, j: nat): (values: seq<Bytes>)
    requires start + j <= |ports|
    requires forall i :: start <= i < start + j ==> ports[i].Some?
    ensures |values| == j
  {
    if j == 0 then [] else Taken(ports, start, j - 1) + [ports[start + j - 1].value]
  }

  /** The value of every input of the next coder is in its port. */
  lemma {:induction false} InputsReady(env: Env, k: nat, done: set<nat>, ports: Slots, j: nat)
    requires Sound(env) && Ran(env, k, done) && k < |env.f.order| && Inputs(env, done, ports)
    requires env.f.order[k] < |env.f.coders| && j <= env.f.coders[env.f.order[k]].inputCount
    ensures
      var start := env.f.coders[env.f.order[k]].inputStart;
      && start + j <= |ports|
      && (forall i :: start <= i < start + j ==> ports[i].Some?)
      && EvalInputs(env, env.f.order[k], j) == Some(Taken(ports, start, j))
    decreases j
  {
    hide Sound, Ran, InputHolds, EvalInputs, EvalInput, OwnersListed;
    var c := env.f.order[k];
    var start := env.f.coders[c].inputStart;
    if j > 0 {
      InputsReady(env, k, done, ports, j - 1);
      NextInput(env, c, j - 1);
      SourcesRan(env, k, done, start + j - 1);
    } else {
      NoInputs(env, c);
    }
  }

  lemma NoInputs(env: Env, c: nat)
    requires Sound(env) && c < |env.f.coders|
    ensures env.f.coders[c].inputStart <= InputTotal(env.f) && EvalInputs(env, c, 0) == Some([])
  {
    StartInRange(env.f, c);
  }

  lemma StartInRange(f: Folder, c: nat)
    requires ValidFolder(f) && c < |f.coders|
    ensures f.coders[c].inputStart <= InputTotal(f)
  {
    hide Owners, BindsOk, RootOk, PackedOk, Topological, PortsInRange;
    BeforeMonotone(InCounts(f.coders), c, |f.coders|);
  }

  // ----- One turn.

  function Cleared(ports: Slots, start: nat, count: nat): Slots {
    seq(|ports|, i requires 0 <= i < |ports| => if start <= i < start + count then None else ports[i])
  }

  /** Where the output of the next coder goes is empty and belongs to a coder still to run. */
  lemma TargetFree(env: Env, k: nat, done: set<nat>, ports: Slots, c: nat, d: nat)
    requires Sound(env) && Ran(env, k, done) && k < |env.f.order| && Inputs(env, done, ports) && c == env.f.order[k]
    requires DestinationOf(env.f.bindPairs, c) == Some(d)
    ensures d < |ports| && ports[d].None? && InputOwners(env.f)[d] !in done && InputOwners(env.f)[d] != c
    ensures SourceOf(env.f.bindPairs, d) == Some(c) && c !in done
  {
    hide ValidFolder, SingleOutputs, Listed, EvalInput, EvalOutput;
    AllListed(env.f);
    DestinationMatches(env.f, c, d);
    SourceEarlier(env.f, d, c);
    PositionUnique(env.f.order, k);
    PositionDone(env.f.order, k, InputOwners(env.f)[d]);
    PositionDone(env.f.order, k, c);
  }

  lemma DestinationMatches(f: Folder, c: nat, d: nat)
    requires ValidFolder(f) && DestinationOf(f.bindPairs, c) == Some(d)
    ensures SourceOf(f.bindPairs, d) == Some(c)
    ensures forall i :: SourceOf(f.bindPairs, i) == Some(c) ==> i == d
  {
    hide Topological, RootOk, PackedOk, Numbered, PortsInRange;
    BindingsMatch(f.bindPairs, InputTotal(f), OutputTotal(f), d, c);
    forall i | SourceOf(f.bindPairs, i) == Some(c) ensures i == d {
      BindingsMatch(f.bindPairs, InputTotal(f), OutputTotal(f), i, c);
    }
  }

  lemma OwnerByInterval(f: Folder, i: nat, c: nat)
    requires ValidFolder(f) && i < InputTotal(f) && c < |f.coders|
    ensures InputOwners(f)[i] == c <==> f.coders[c].inputStart <= i < f.coders[c].inputStart + f.coders[c].inputCount
  {
    hide Owners, BindsOk, RootOk, PackedOk, Topological, PortsInRange;
    OwnerInterval(InCounts(f.coders), |f.coders|, i, c);
  }

  /** An input whose source is not c is untouched by c's turn, unless c owns it. */
  lemma HoldsAfter(env: Env, done: set<nat>, i: nat, c: nat)
    requires Sound(env) && OwnersListed(env) && i < InputTotal(env.f)
    ensures InputOwners(env.f)[i] == c ==> InputHolds(env, done + {c}, i) == None
    ensures InputOwners(env.f)[i] != c && SourceOf(env.f.bindPairs, i) != Some(c)
      ==> InputHolds(env, done + {c}, i) == InputHolds(env, done, i)
    ensures InputOwners(env.f)[i] != c && SourceOf(env.f.bindPairs, i) == Some(c) && InputOwners(env.f)[i] !in done
      && c < |env.f.coders|
      ==> InputHolds(env, done + {c}, i) == EvalOutput(env, c)
  {
    hide ValidFolder, SingleOutputs, Listed, EvalOutput;
  }

  /** A turn that feeds another coder. */
  lemma TurnToInput(env: Env, k: nat, done: set<nat>, ports: Slots, c: nat, d: nat)
    requires Sound(env) && Ran(env, k, done) && k < |env.f.order| && Inputs(env, done, ports) && c == env.f.order[k]
    requires c < |env.f.coders| && DestinationOf(env.f.bindPairs, c) == Some(d)
    ensures d < |ports|
    ensures
      var coder := env.f.coders[c];
      Inputs(env, done + {c}, Cleared(ports, coder.inputStart, coder.inputCount)[d := EvalOutput(env, c)])
  {
    hide ValidFolder, SingleOutputs, Listed, EvalOutput, EvalInput, InputHolds, Ran;
    TargetFree(env, k, done, ports, c, d);
    DestinationMatches(env.f, c, d);
    var coder := env.f.coders[c];
    var after := Cleared(ports, coder.inputStart, coder.inputCount)[d := EvalOutput(env, c)];
    forall i | 0 <= i < |after| ensures after[i] == InputHolds(env, done + {c}, i) {
      HoldsAfter(env, done, i, c);
      OwnerByInterval(env.f, i, c);
    }
  }

  /** The root's turn: nothing is fed. */
  lemma TurnToRoot(env: Env, k: nat, done: set<nat>, ports: Slots, c: nat)
    requires Sound(env) && Ran(env, k, done) && k < |env.f.order| && Inputs(env, done, ports) && c == env.f.order[k]
    requires c < |env.f.coders| && DestinationOf(env.f.bindPairs, c).None?
    ensures
      var coder := env.f.coders[c];
      Inputs(env, done + {c}, Cleared(ports, coder.inputStart, coder.inputCount))
  {
    hide ValidFolder, SingleOutputs, Listed, EvalOutput, EvalInput, InputHolds, Ran;
    var coder := env.f.coders[c];
    var after := Cleared(ports, coder.inputStart, coder.inputCount);
    forall i | 0 <= i < |after| ensures after[i] == InputHolds(env, done + {c}, i) {
      HoldsAfter(env, done, i, c);
      OwnerByInterval(env.f, i, c);
      NotFedBy(env.f, i, c);
    }
  }

  lemma NotFedBy(f: Folder, i: nat, c: nat)
    requires DestinationOf(f.bindPairs, c).None?
    ensures SourceOf(f.bindPairs, i) != Some(c)
  {
  }

  lemma RootHasNoTarget(f: Folder, c: nat)
    requires ValidFolder(f) && SingleOutputs(f) && c < |f.coders|
    ensures DestinationOf(f.bindPairs, c).None? <==> c == f.rootOutput
  {
    hide Topological, PackedOk, Numbered, PortsInRange, BindsOk;
    OutputsAreCoders(f);
    assert OutputBound(f.bindPairs, c) <==> c != f.rootOutput;
  }

  lemma RanOneMore(env: Env, k: nat, done: set<nat>)
    requires Sound(env) && Ran(env, k, done) && k < |env.f.order|
    requires env.f.order[k] < |env.f.coders| && EvalOutput(env, env.f.order[k]).Some?
    ensures Ran(env, k + 1, done + {env.f.order[k]})
  {
    hide ValidFolder, SingleOutputs, Listed, EvalOutput;
    assert env.f.order[..k + 1] == env.f.order[..k] + [env.f.order[k]];
  }

  // ----- At the end.

  lemma AllRan(env: Env, done: set<nat>, ports: Slots)
    requires Sound(env) && Ran(env, |env.f.order|, done) && Inputs(env, done, ports)
    ensures forall i :: 0 <= i < |ports| ==> ports[i].None?
    ensures env.f.rootOutput in done && env.f.rootOutput < |env.f.coders|
  {
    hide ValidFolder, SingleOutputs, Listed, EvalOutput, EvalInput;
    assert env.f.order[..|env.f.order|] == env.f.order;
    RootInRange(env.f);
    assert env.f.rootOutput in env.f.order by {
      AllListed(env.f);
    }
    forall i | 0 <= i < |ports| ensures ports[i].None? {
      assert InputOwners(env.f)[i] in env.f.order;
    }
  }

  lemma RootInRange(f: Folder)
    requires ValidFolder(f) && SingleOutputs(f)
    ensures f.rootOutput < |f.coders|
  {
    OutputsAreCoders(f);
  }
}
