/** The queue-based topological sort of coders, and what it decides. */
module Scheduling {
  import opened Support

  datatype Edge = Edge(source: nat, destination: nat)

  predicate InRange(edges: seq<Edge>, n: nat) {
    forall e :: e in edges ==> e.source < n && e.destination < n
  }

  // ----- Cycles and orders.

  predicate Walk(edges: seq<Edge>, walk: seq<nat>) {
    forall i :: 0 <= i < |walk| - 1 ==> Edge(walk[i], walk[i + 1]) in edges
  }

  predicate Cycle(edges: seq<Edge>, walk: seq<nat>) {
    |walk| >= 2 && walk[0] == walk[|walk| - 1] && Walk(edges, walk)
  }

  ghost predicate Cyclic(edges: seq<Edge>) {
    exists walk :: Cycle(edges, walk)
  }

  predicate Distinct(s: seq<nat>) {
    forall i, j :: 0 <= i < j < |s| ==> s[i] != s[j]
  }

  /** Every edge into a listed coder comes from one listed before it. */
  predicate SourcesFirst(edges: seq<Edge>, order: seq<nat>) {
    forall e, i :: e in edges && 0 <= i < |order| && order[i] == e.destination ==> e.source in order[..i]
  }

  /** A permutation of the coders 0..n with every source before its destination. */
  predicate Topological(edges: seq<Edge>, n: nat, order: seq<nat>) {
    && |order| == n && Distinct(order) && (forall c :: c in order ==> c < n)
    && SourcesFirst(edges, order)
  }

  // ----- A topological order rules out cycles.

  lemma {:induction false} LaterOnWalk(edges: seq<Edge>, order: seq<nat>, walk: seq<nat>, i: nat, j: nat)
    requires Distinct(order) && SourcesFirst(edges, order)
    requires |walk| > 0 && Walk(edges, walk)
    requires j < |order| && order[j] == walk[|walk| - 1]
    requires i < |order| && order[i] == walk[0]
    ensures |walk| >= 2 ==> i < j
    decreases |walk|
  {
    if |walk| >= 2 {
      var n := |walk| - 1;
      assert Edge(walk[n - 1], walk[n - 1 + 1]) in edges;
      assert walk[n - 1] in order[..j];
      var k :| 0 <= k < j && order[k] == walk[n - 1];
      LaterOnWalk(edges, order, walk[..n], i, k);
    }
  }

  lemma OrderedMeansAcyclic(edges: seq<Edge>, n: nat, order: seq<nat>)
    requires InRange(edges, n) && Topological(edges, n, order)
    ensures !Cyclic(edges)
  {
    forall walk | Cycle(edges, walk) ensures false {
      var last := |walk| - 1;
      assert Edge(walk[0], walk[0 + 1]) in edges;
      EveryCoderListed(order, n, walk[0]);
      var i :| 0 <= i < |order| && order[i] == walk[0];
      LaterOnWalk(edges, order, walk, i, i);
    }
  }

  // ----- Counting.

  function Below(n: nat): (s: set<nat>)
    ensures |s| == n && forall c: nat :: c in s <==> c < n
  {
    if n == 0 then {} else Below(n - 1) + {n - 1}
  }

  lemma {:induction false} DistinctSize(s: seq<nat>)
    requires Distinct(s)
    ensures |Members(s)| == |s|
    decreases |s|
  {
    if |s| > 0 {
      var n := |s| - 1;
      DistinctSize(s[..n]);
      assert Members(s) == Members(s[..n]) + {s[n]};
    }
  }

  function Members(s: seq<nat>): set<nat> {
    set c | c in s
  }

  lemma SubsetSize(a: set<nat>, b: set<nat>)
    requires a <= b
    ensures |a| <= |b| && (|a| == |b| ==> a == b)
  {
    assert b == a + (b - a);
  }

  lemma EveryCoderListed(order: seq<nat>, n: nat, c: nat)
    requires |order| == n && Distinct(order) && (forall d :: d in order ==> d < n) && c < n
    ensures c in order
  {
    DistinctSize(order);
    SubsetSize(Members(order), Below(n));
    assert c in Members(order);
  }

  lemma NotAllListed(order: seq<nat>, n: nat) returns (c: nat)
    requires |order| < n && Distinct(order)
    ensures c < n && c !in order
  {
    if forall d: nat :: d < n ==> d in order {
      assert Below(n) <= Members(order);
      SubsetSize(Below(n), Members(order));
      DistinctSize(order);
      assert false;
    }
    c :| c < n && c !in order;
  }

  // ----- If every unlisted coder waits for an unlisted one, there is a cycle.

  ghost predicate Stuck(edges: seq<Edge>, n: nat, listed: seq<nat>) {
    forall d: nat :: d < n && d !in listed ==> Blocked(edges, n, listed, d)
  }

  ghost predicate Blocked(edges: seq<Edge>, n: nat, listed: seq<nat>, d: nat) {
    exists s: nat :: s < n && s !in listed && Edge(s, d) in edges
  }

  lemma ExtendWalk(edges: seq<Edge>, walk: seq<nat>, c: nat)
    requires |walk| > 0 && Walk(edges, walk) && Edge(walk[|walk| - 1], c) in edges
    ensures Walk(edges, walk + [c])
  {
    var longer := walk + [c];
    forall i | 0 <= i < |longer| - 1 ensures Edge(longer[i], longer[i + 1]) in edges {
      if i < |walk| - 1 {
        assert Edge(walk[i], walk[i + 1]) in edges;
      }
    }
  }

  lemma PartOfWalk(edges: seq<Edge>, walk: seq<nat>, i: nat, j: nat)
    requires i < j < |walk| && Walk(edges, walk)
    ensures Walk(edges, walk[i..j + 1])
  {
    var part := walk[i..j + 1];
    forall k | 0 <= k < |part| - 1 ensures Edge(part[k], part[k + 1]) in edges {
      assert Edge(walk[i + k], walk[i + k + 1]) in edges;
    }
  }

  lemma {:induction false} WaitingWalk(edges: seq<Edge>, n: nat, listed: seq<nat>, c: nat, length: nat)
      returns (walk: seq<nat>)
    requires Stuck(edges, n, listed) && c < n && c !in listed
    ensures |walk| == length + 1 && Walk(edges, walk) && walk[|walk| - 1] == c
    ensures forall d :: d in walk ==> d < n
    decreases length
  {
    if length == 0 {
      walk := [c];
    } else {
      assert Blocked(edges, n, listed, c);
      var s: nat :| s < n && s !in listed && Edge(s, c) in edges;
      var shorter := WaitingWalk(edges, n, listed, s, length - 1);
      walk := shorter + [c];
      ExtendWalk(edges, shorter, c);
    }
  }

  lemma RepeatedOnWalk(walk: seq<nat>, n: nat) returns (i: nat, j: nat)
    requires |walk| > n && forall d :: d in walk ==> d < n
    ensures i < j < |walk| && walk[i] == walk[j]
  {
    if Distinct(walk) {
      DistinctSize(walk);
      SubsetSize(Members(walk), Below(n));
      assert false;
    }
    i, j :| 0 <= i < j < |walk| && walk[i] == walk[j];
  }

  lemma StuckMeansCyclic(edges: seq<Edge>, n: nat, listed: seq<nat>)
    requires Stuck(edges, n, listed) && |listed| < n && Distinct(listed)
    ensures Cyclic(edges)
  {
    var c := NotAllListed(listed, n);
    var walk := WaitingWalk(edges, n, listed, c, n);
    var i, j := RepeatedOnWalk(walk, n);
    PartOfWalk(edges, walk, i, j);
    assert Cycle(edges, walk[i..j + 1]);
  }

  // ----- The sort. Open counts the edges into c whose source is still to be scheduled,
  //       when the first k edges have been released for coder u and all for `done`.

  predicate Waits(e: Edge, released: bool, done: set<nat>, u: nat, c: nat) {
    e.destination == c && e.source !in done && !(released && e.source == u)
  }

  function Open(edges: seq<Edge>, m: nat, k: nat, done: set<nat>, u: nat, c: nat): nat
    requires m <= |edges|
  {
    if m == 0 then 0
    else Open(edges, m - 1, k, done, u, c) + if Waits(edges[m - 1], m - 1 < k, done, u, c) then 1 else 0
  }

  /** Releasing edge k for u lowers the count of its destination by one, and no other. */
  lemma {:induction false} OpenStep(edges: seq<Edge>, m: nat, k: nat, done: set<nat>, u: nat, c: nat)
    requires m <= |edges| && k < |edges|
    ensures Open(edges, m, k + 1, done, u, c) == Open(edges, m, k, done, u, c)
      - if k < m && edges[k].source == u && u !in done && edges[k].destination == c then 1 else 0
    ensures k < m && edges[k].source == u && u !in done && edges[k].destination == c ==>
      Open(edges, m, k, done, u, c) > 0
    decreases m
  {
    if m > 0 {
      OpenStep(edges, m - 1, k, done, u, c);
    }
  }

  /** Once every edge is released, u counts as done. */
  lemma {:induction false} OpenDone(edges: seq<Edge>, m: nat, done: set<nat>, u: nat, v: nat, c: nat)
    requires m <= |edges|
    ensures Open(edges, m, |edges|, done, u, c) == Open(edges, m, 0, done + {u}, v, c)
    decreases m
  {
    if m > 0 {
      OpenDone(edges, m - 1, done, u, v, c);
    }
  }

  lemma {:induction false} OpenZero(edges: seq<Edge>, m: nat, k: nat, done: set<nat>, u: nat, c: nat, e: Edge)
    requires m <= |edges| && Open(edges, m, k, done, u, c) == 0
    requires e in edges[..m] && e.destination == c
    ensures e.source in done || (k > 0 && e.source == u)
    decreases m
  {
    if e in edges[..m - 1] {
      OpenZero(edges, m - 1, k, done, u, c, e);
    } else {
      assert e == edges[m - 1];
    }
  }

  lemma {:induction false} OpenPositive(edges: seq<Edge>, m: nat, done: set<nat>, u: nat, c: nat) returns (e: Edge)
    requires m <= |edges| && Open(edges, m, 0, done, u, c) > 0
    ensures e in edges && e.destination == c && e.source !in done
    decreases m
  {
    if Waits(edges[m - 1], false, done, u, c) {
      e := edges[m - 1];
    } else {
      e := OpenPositive(edges, m - 1, done, u, c);
    }
  }

  ghost predicate Counted(edges: seq<Edge>, n: nat, indegree: seq<nat>, k: nat, done: set<nat>, u: nat) {
    |indegree| == n && forall c: nat :: c < n ==> indegree[c] == Open(edges, |edges|, k, done, u, c)
  }

  ghost predicate Queued(edges: seq<Edge>, n: nat, indegree: seq<nat>, ready: seq<nat>) {
    && |indegree| == n && Distinct(ready) && SourcesFirst(edges, ready)
    && (forall c :: c in ready ==> c < n)
    && (forall c: nat :: c < n ==> (c in ready <==> indegree[c] == 0))
  }

  lemma SkipEdge(edges: seq<Edge>, n: nat, indegree: seq<nat>, k: nat, done: set<nat>, u: nat)
    requires Counted(edges, n, indegree, k, done, u) && k < |edges| && edges[k].source != u
    ensures Counted(edges, n, indegree, k + 1, done, u)
  {
    forall c: nat | c < n ensures indegree[c] == Open(edges, |edges|, k + 1, done, u, c) {
      OpenStep(edges, |edges|, k, done, u, c);
    }
  }

  lemma ReleaseEdge(edges: seq<Edge>, n: nat, indegree: seq<nat>, k: nat, done: set<nat>, u: nat)
    requires Counted(edges, n, indegree, k, done, u) && InRange(edges, n)
    requires k < |edges| && edges[k].source == u && u !in done
    ensures
      var d := edges[k].destination;
      d < n && indegree[d] > 0 && Counted(edges, n, indegree[d := indegree[d] - 1], k + 1, done, u)
  {
    var d := edges[k].destination;
    assert edges[k] in edges;
    OpenStep(edges, |edges|, k, done, u, d);
    var lowered := indegree[d := indegree[d] - 1];
    forall c: nat | c < n ensures lowered[c] == Open(edges, |edges|, k + 1, done, u, c) {
      OpenStep(edges, |edges|, k, done, u, c);
    }
  }

  lemma Enqueue(edges: seq<Edge>, n: nat, indegree: seq<nat>, ready: seq<nat>, d: nat, k: nat, done: set<nat>, u: nat)
    requires Queued(edges, n, indegree, ready) && d < n && indegree[d] > 0
    requires Counted(edges, n, indegree[d := indegree[d] - 1], k, done, u)
    requires u in ready && forall c :: c in done ==> c in ready
    ensures
      var lowered := indegree[d := indegree[d] - 1];
      Queued(edges, n, lowered, if lowered[d] == 0 then ready + [d] else ready)
  {
    var lowered := indegree[d := indegree[d] - 1];
    if lowered[d] == 0 {
      forall e | e in edges && e.destination == d ensures e.source in ready {
        assert edges[..|edges|] == edges;
        OpenZero(edges, |edges|, k, done, u, d, e);
      }
      AppendLast(edges, ready, d);
    }
  }

  lemma AppendLast(edges: seq<Edge>, ready: seq<nat>, d: nat)
    requires Distinct(ready) && SourcesFirst(edges, ready) && d !in ready
    requires forall e :: e in edges && e.destination == d ==> e.source in ready
    ensures Distinct(ready + [d]) && SourcesFirst(edges, ready + [d])
  {
    var longer := ready + [d];
    forall e, i | e in edges && 0 <= i < |longer| && longer[i] == e.destination ensures e.source in longer[..i] {
      if i < |ready| {
        assert longer[..i] == ready[..i];
      } else {
        assert longer[..i] == ready;
      }
    }
  }

  method InitialQueue(edges: seq<Edge>, n: nat, indegree: seq<nat>) returns (ready: seq<nat>)
    requires InRange(edges, n) && Counted(edges, n, indegree, 0, {}, 0)
    ensures Queued(edges, n, indegree, ready)
  {
    ready := [];
    for index := 0 to n
      invariant Distinct(ready)
      invariant forall c: nat :: c in ready <==> c < index && indegree[c] == 0
    {
      if indegree[index] == 0 {
        ready := ready + [index];
      }
    }
    forall e | e in edges ensures e.destination !in ready {
      if e.destination in ready {
        NoneWaits(edges, e.destination);
      }
    }
  }

  lemma NoneWaits(edges: seq<Edge>, c: nat)
    requires Open(edges, |edges|, 0, {}, 0, c) == 0
    ensures forall e :: e in edges ==> e.destination != c
  {
    assert edges[..|edges|] == edges;
    forall e | e in edges ensures e.destination != c {
      if e.destination == c {
        OpenZero(edges, |edges|, 0, {}, 0, c, e);
      }
    }
  }

  /** Releases every edge that leaves coder u, queueing the coders this frees. */
  method ReleaseCoder(edges: seq<Edge>, n: nat, indegree0: seq<nat>, ready0: seq<nat>, cursor: nat,
                      control: ParseControl)
      returns (r: Result<()>, indegree: seq<nat>, ready: seq<nat>)
    requires InRange(edges, n) && Queued(edges, n, indegree0, ready0) && cursor < |ready0|
    requires Counted(edges, n, indegree0, 0, Members(ready0[..cursor]), 0)
    modifies control
    ensures r.Success? ==> Queued(edges, n, indegree, ready) && ready0 <= ready && control.Charged(|edges|)
    ensures r.Success? ==> Counted(edges, n, indegree, 0, Members(ready0[..cursor + 1]), 0)
    ensures r.Failure? ==> Interrupted(r) && control.stopped
    ensures old(control.Ample(|edges|)) ==> r.Success?
  {
    var coder := ready0[cursor];
    ghost var done := Members(ready0[..cursor]);
    assert Members(ready0[..cursor + 1]) == done + {coder};
    indegree, ready := indegree0, ready0;
    CountedFor(edges, n, indegree, done, 0, coder);
    for k := 0 to |edges|
      invariant Queued(edges, n, indegree, ready) && ready0 <= ready && control.Charged(k)
      invariant Counted(edges, n, indegree, k, done, coder)
    {
      var step := control.Checkpoint(1);
      if step.Failure? {
        return step, indegree, ready;
      }
      if edges[k].source != coder {
        SkipEdge(edges, n, indegree, k, done, coder);
        continue;
      }
      var destination := edges[k].destination;
      ReleaseEdge(edges, n, indegree, k, done, coder);
      Enqueue(edges, n, indegree, ready, destination, k + 1, done, coder);
      indegree := indegree[destination := indegree[destination] - 1];
      if indegree[destination] == 0 {
        ready := ready + [destination];
      }
    }
    AllReleased(edges, n, indegree, done, coder);
    return Success(()), indegree, ready;
  }

  lemma CountedFor(edges: seq<Edge>, n: nat, indegree: seq<nat>, done: set<nat>, u: nat, v: nat)
    requires Counted(edges, n, indegree, 0, done, u)
    ensures Counted(edges, n, indegree, 0, done, v)
  {
    forall c: nat | c < n ensures indegree[c] == Open(edges, |edges|, 0, done, v, c) {
      OpenFor(edges, |edges|, done, u, v, c);
    }
  }

  lemma {:induction false} OpenFor(edges: seq<Edge>, m: nat, done: set<nat>, u: nat, v: nat, c: nat)
    requires m <= |edges|
    ensures Open(edges, m, 0, done, u, c) == Open(edges, m, 0, done, v, c)
    decreases m
  {
    if m > 0 {
      OpenFor(edges, m - 1, done, u, v, c);
    }
  }

  lemma AllReleased(edges: seq<Edge>, n: nat, indegree: seq<nat>, done: set<nat>, u: nat)
    requires Counted(edges, n, indegree, |edges|, done, u)
    ensures Counted(edges, n, indegree, 0, done + {u}, 0)
  {
    forall c: nat | c < n ensures indegree[c] == Open(edges, |edges|, 0, done + {u}, 0, c) {
      OpenDone(edges, |edges|, done, u, 0, c);
    }
  }

  /** With the queue drained, a coder left out waits for another one left out. */
  lemma DrainedIsStuck(edges: seq<Edge>, n: nat, indegree: seq<nat>, ready: seq<nat>)
    requires InRange(edges, n) && Queued(edges, n, indegree, ready)
    requires Counted(edges, n, indegree, 0, Members(ready), 0)
    ensures Stuck(edges, n, ready)
  {
    forall d: nat | d < n && d !in ready ensures Blocked(edges, n, ready, d) {
      var e := OpenPositive(edges, |edges|, Members(ready), 0, d);
      assert e == Edge(e.source, d);
    }
  }

  /** Decides acyclicity: a full order, or the cycle that blocks it. */
  method Schedule(edges: seq<Edge>, n: nat, indegree0: seq<nat>, control: ParseControl) returns (r: Result<seq<nat>>)
    requires InRange(edges, n) && Counted(edges, n, indegree0, 0, {}, 0)
    modifies control
    ensures r.Success? ==> Topological(edges, n, r.value) && control.Charged(n * (1 + |edges|))
    ensures r.Failure? ==> (Interrupted(r) && control.stopped) || (r == Failure(Format(GraphHasCycle)) && Cyclic(edges))
    ensures old(control.Ample(n * (1 + |edges|))) ==> !Interrupted(r)
  {
    hide Counted, Queued, InRange, Cyclic, Topological, Stuck, Distinct;
    var indegree := indegree0;
    var ready := InitialQueue(edges, n, indegree);
    QueueFits(edges, n, indegree, ready);
    assert Members([]) == {};
    var order: seq<nat> := [];
    var cursor := 0;
    while cursor < |ready|
      invariant Queued(edges, n, indegree, ready)
      invariant 0 <= cursor <= |ready| <= n && order == ready[..cursor]
      invariant Counted(edges, n, indegree, 0, Members(order), 0)
      invariant control.Charged(cursor * (1 + |edges|))
      decreases n - cursor
    {
      Rounds(cursor, n, 1 + |edges|);
      var _ :- control.Checkpoint(1);
      order := order + [ready[cursor]];
      assert order == ready[..cursor + 1];
      var released;
      released, indegree, ready := ReleaseCoder(edges, n, indegree, ready, cursor, control);
      if released.Failure? {
        return Failure(released.error);
      }
      cursor := cursor + 1;
      assert order == ready[..cursor];
      QueueFits(edges, n, indegree, ready);
    }
    QueueFits(edges, n, indegree, ready);
    assert order == ready;
    if |order| != n {
      DrainedIsStuck(edges, n, indegree, ready);
      StuckMeansCyclic(edges, n, ready);
      return Failure(Format(GraphHasCycle));
    }
    return Success(order);
  }

  lemma Rounds(done: nat, n: nat, cost: nat)
    requires done < n
    ensures (done + 1) * cost == done * cost + cost <= n * cost
  {
  }

  lemma QueueFits(edges: seq<Edge>, n: nat, indegree: seq<nat>, ready: seq<nat>)
    requires Queued(edges, n, indegree, ready)
    ensures |ready| <= n && Distinct(ready)
    ensures |ready| == n ==> Topological(edges, n, ready)
  {
    DistinctSize(ready);
    SubsetSize(Members(ready), Below(n));
  }
}
