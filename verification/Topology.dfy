/** The queue check of `GraphBuilder.build`: a graph is accepted exactly when its
    authored edge multigraph has no cycle. */
module Topology {

  /** One authored edge, reduced to the two node ids the queue check reads. Parallel
      edges and self-loops are ordinary members of the sequence. */
  datatype Arc<T> = Arc(src: T, dst: T)

  ghost predicate Distinct<T>(s: seq<T>) {
    forall i, j :: 0 <= i < j < |s| ==> s[i] != s[j]
  }

  ghost function ToSet<T>(s: seq<T>): set<T> {
    set x | x in s
  }

  ghost predicate Closed<T>(nodes: seq<T>, arcs: seq<Arc<T>>) {
    forall a :: a in arcs ==> a.src in nodes && a.dst in nodes
  }

  // ---------------------------------------------------------------- cycles and orders

  ghost predicate Walk<T>(arcs: seq<Arc<T>>, w: seq<T>) {
    forall i :: 0 <= i < |w| - 1 ==> Arc(w[i], w[i + 1]) in arcs
  }

  ghost predicate ClosedWalk<T>(arcs: seq<Arc<T>>, w: seq<T>) {
    |w| >= 2 && w[0] == w[|w| - 1] && Walk(arcs, w)
  }

  /** A cycle is a non-empty closed walk; it mentions neither queue nor counts. */
  ghost predicate HasCycle<T(!new)>(arcs: seq<Arc<T>>) {
    exists w: seq<T> :: ClosedWalk(arcs, w)
  }

  ghost predicate RespectsArcs<T>(arcs: seq<Arc<T>>, order: seq<T>) {
    forall i, j :: 0 <= i < |order| && 0 <= j < |order| && Arc(order[i], order[j]) in arcs ==> i < j
  }

  ghost predicate TopologicalOrder<T>(nodes: seq<T>, arcs: seq<Arc<T>>, order: seq<T>) {
    && Distinct(order)
    && ToSet(order) == ToSet(nodes)
    && RespectsArcs(arcs, order)
  }

  // ---------------------------------------------------------------- counting

  /** The number of arcs into `n` whose source has not been dequeued yet. */
  ghost function Pending<T>(arcs: seq<Arc<T>>, n: T, done: set<T>): nat {
    if arcs == [] then 0
    else
      var last := arcs[|arcs| - 1];
      Pending(arcs[..|arcs| - 1], n, done) + (if last.dst == n && last.src !in done then 1 else 0)
  }

  /** The `outgoing` list of `n`: one entry per arc, in authoring order. */
  ghost function Targets<T>(arcs: seq<Arc<T>>, n: T): seq<T> {
    if arcs == [] then []
    else
      var last := arcs[|arcs| - 1];
      Targets(arcs[..|arcs| - 1], n) + (if last.src == n then [last.dst] else [])
  }

  ghost function Occurrences<T>(s: seq<T>, n: T): nat {
    multiset(s)[n]
  }

  lemma {:induction false} TargetsAreArcs<T>(arcs: seq<Arc<T>>, n: T, t: T)
    ensures t in Targets(arcs, n) <==> Arc(n, t) in arcs
  {
    if arcs != [] {
      TargetsAreArcs(arcs[..|arcs| - 1], n, t);
      assert arcs == arcs[..|arcs| - 1] + [arcs[|arcs| - 1]];
    }
  }

  /** Dequeuing `cur` settles exactly the arcs listed in its `outgoing` entry. */
  lemma {:induction false} PendingSplit<T>(arcs: seq<Arc<T>>, n: T, done: set<T>, cur: T)
    requires cur !in done
    ensures Pending(arcs, n, done) == Pending(arcs, n, done + {cur}) + Occurrences(Targets(arcs, cur), n)
  {
    if arcs != [] {
      PendingSplit(arcs[..|arcs| - 1], n, done, cur);
    }
  }

  lemma {:induction false} PendingZero<T>(arcs: seq<Arc<T>>, n: T, done: set<T>)
    ensures Pending(arcs, n, done) == 0 <==> forall a :: a in arcs && a.dst == n ==> a.src in done
  {
    if arcs != [] {
      PendingZero(arcs[..|arcs| - 1], n, done);
      assert arcs == arcs[..|arcs| - 1] + [arcs[|arcs| - 1]];
    }
  }

  // ---------------------------------------------------------------- orders exclude cycles

  lemma {:induction false} WalkClimbs<T>(arcs: seq<Arc<T>>, order: seq<T>, w: seq<T>, i: nat, j: nat)
    requires RespectsArcs(arcs, order) && Walk(arcs, w)
    requires |w| >= 2 && i < |order| && j < |order| && w[0] == order[i] && w[|w| - 1] == order[j]
    requires forall a :: a in arcs ==> a.src in order && a.dst in order
    ensures i < j
    decreases |w|
  {
    assert Arc(w[0], w[1]) in arcs;
    if |w| > 2 {
      var k :| 0 <= k < |order| && order[k] == w[1];
      forall m | 0 <= m < |w[1..]| - 1 ensures Arc(w[1..][m], w[1..][m + 1]) in arcs {
        assert Arc(w[m + 1], w[m + 2]) in arcs;
      }
      WalkClimbs(arcs, order, w[1..], k, j);
    }
  }

  lemma {:induction false} OrderExcludesCycles<T(!new)>(nodes: seq<T>, arcs: seq<Arc<T>>, order: seq<T>)
    requires Closed(nodes, arcs) && TopologicalOrder(nodes, arcs, order)
    ensures !HasCycle(arcs)
  {
    assert forall n :: n in nodes ==> n in ToSet(order);
    if HasCycle(arcs) {
      var w :| ClosedWalk(arcs, w);
      assert Arc(w[0], w[1]) in arcs;
      var i :| 0 <= i < |order| && order[i] == w[0];
      WalkClimbs(arcs, order, w, i, i);
    }
  }

  // ---------------------------------------------------------------- stuck sets contain cycles

  lemma {:induction false} DistinctFits<T>(s: seq<T>, u: set<T>)
    requires Distinct(s) && forall x :: x in s ==> x in u
    ensures |s| <= |u|
  {
    if s != [] {
      var rest := s[..|s| - 1];
      var last := s[|s| - 1];
      assert forall x :: x in rest ==> x != last;
      DistinctFits(rest, u - {last});
    }
  }

  ghost predicate HasPredecessor<T>(arcs: seq<Arc<T>>, u: set<T>, x: T) {
    exists p :: p in u && Arc(p, x) in arcs
  }

  /** Every member of `u` has a predecessor inside `u`. */
  ghost predicate Stuck<T>(arcs: seq<Arc<T>>, u: set<T>) {
    forall x {:trigger HasPredecessor(arcs, u, x)} :: x in u ==> HasPredecessor(arcs, u, x)
  }

  lemma {:induction false} WalkInside<T>(arcs: seq<Arc<T>>, u: set<T>, length: nat) returns (w: seq<T>)
    requires u != {} && Stuck(arcs, u) && length >= 1
    ensures |w| == length && Walk(arcs, w) && forall x :: x in w ==> x in u
  {
    if length == 1 {
      var x :| x in u;
      w := [x];
    } else {
      var tail := WalkInside(arcs, u, length - 1);
      assert HasPredecessor(arcs, u, tail[0]);
      var p :| p in u && Arc(p, tail[0]) in arcs;
      w := [p] + tail;
      forall i | 0 <= i < |w| - 1 ensures Arc(w[i], w[i + 1]) in arcs {
        if i > 0 { assert Arc(tail[i - 1], tail[i]) in arcs; }
      }
    }
  }

  lemma {:induction false} StuckSetHasCycle<T(!new)>(arcs: seq<Arc<T>>, u: set<T>)
    requires u != {} && Stuck(arcs, u)
    ensures HasCycle(arcs)
  {
    var w := WalkInside(arcs, u, |u| + 1);
    if Distinct(w) {
      DistinctFits(w, u);
      assert false;
    }
    var i, j :| 0 <= i < j < |w| && w[i] == w[j];
    var c := w[i..j + 1];
    forall m | 0 <= m < |c| - 1 ensures Arc(c[m], c[m + 1]) in arcs {
      assert Arc(w[i + m], w[i + m + 1]) in arcs;
    }
    assert ClosedWalk(arcs, c);
  }

  // ---------------------------------------------------------------- the queue check

  ghost predicate CountsAgree<T>(nodes: seq<T>, arcs: seq<Arc<T>>, incoming: map<T, int>, done: set<T>) {
    && incoming.Keys == ToSet(nodes)
    && forall n :: n in nodes ==> incoming[n] == Pending(arcs, n, done)
  }

  /** The dequeued and the waiting nodes are distinct, and are exactly those whose
      remaining incoming count is zero. */
  ghost predicate QueueAgrees<T>(nodes: seq<T>, incoming: map<T, int>, done: seq<T>, queue: seq<T>) {
    && Distinct(done + queue)
    && incoming.Keys == ToSet(nodes)
    && (forall n :: n in nodes ==> (incoming[n] == 0 <==> n in done + queue))
    && (forall n :: n in done + queue ==> n in nodes)
  }

  function ListOf<T(==)>(outgoing: map<T, seq<T>>, n: T): seq<T> {
    if n in outgoing then outgoing[n] else []
  }

  method CountArcs<T(==, !new)>(nodes: seq<T>, arcs: seq<Arc<T>>)
    returns (incoming: map<T, int>, outgoing: map<T, seq<T>>)
    requires Closed(nodes, arcs)
    ensures CountsAgree(nodes, arcs, incoming, {})
    ensures forall n :: ListOf(outgoing, n) == Targets(arcs, n)
  {
    incoming := map n | n in nodes :: 0;
    outgoing := map[];
    for i := 0 to |arcs|
      invariant CountsAgree(nodes, arcs[..i], incoming, {})
      invariant forall n :: ListOf(outgoing, n) == Targets(arcs[..i], n)
    {
      var a := arcs[i];
      assert arcs[..i + 1][..i] == arcs[..i];
      incoming := incoming[a.dst := incoming[a.dst] + 1];
      outgoing := outgoing[a.src := ListOf(outgoing, a.src) + [a.dst]];
    }
    assert arcs[..|arcs|] == arcs;
  }

  method InitialQueue<T(==)>(nodes: seq<T>, incoming: map<T, int>) returns (queue: seq<T>)
    requires Distinct(nodes) && incoming.Keys == ToSet(nodes)
    ensures QueueAgrees(nodes, incoming, [], queue)
  {
    queue := [];
    for i := 0 to |nodes|
      invariant Distinct(queue)
      invariant forall n :: n in queue <==> n in nodes[..i] && incoming[n] == 0
    {
      if incoming[nodes[i]] == 0 {
        queue := queue + [nodes[i]];
      }
    }
    assert [] + queue == queue;
  }

  /** The counts while the arcs to `rest` are still to be settled. */
  ghost predicate PartlySettled<T>(nodes: seq<T>, arcs: seq<Arc<T>>, incoming: map<T, int>, done: set<T>, rest: seq<T>) {
    && incoming.Keys == ToSet(nodes)
    && forall n :: n in nodes ==> incoming[n] == Pending(arcs, n, done) + Occurrences(rest, n)
  }

  lemma {:induction false} DecrementSettles<T>(nodes: seq<T>, arcs: seq<Arc<T>>, incoming: map<T, int>, done: set<T>, t: T, rest: seq<T>)
    requires t in nodes && PartlySettled(nodes, arcs, incoming, done, [t] + rest)
    ensures incoming[t] >= 1 && PartlySettled(nodes, arcs, incoming[t := incoming[t] - 1], done, rest)
  {
    assert multiset([t] + rest) == multiset{t} + multiset(rest);
  }

  lemma {:induction false} DecrementEnqueues<T>(nodes: seq<T>, incoming: map<T, int>, done: seq<T>, queue: seq<T>, t: T)
    requires t in nodes && QueueAgrees(nodes, incoming, done, queue) && incoming[t] >= 1
    ensures var fewer := incoming[t := incoming[t] - 1];
            QueueAgrees(nodes, fewer, done, if fewer[t] == 0 then queue + [t] else queue)
  {
    assert t !in done + queue;
    assert done + (queue + [t]) == (done + queue) + [t];
  }

  lemma {:induction false} DequeueOpens<T>(nodes: seq<T>, arcs: seq<Arc<T>>, incoming: map<T, int>, before: set<T>, cur: T)
    requires Closed(nodes, arcs) && cur !in before && CountsAgree(nodes, arcs, incoming, before)
    ensures PartlySettled(nodes, arcs, incoming, before + {cur}, Targets(arcs, cur))
    ensures forall t :: t in Targets(arcs, cur) ==> t in nodes
  {
    forall t | t in Targets(arcs, cur) ensures t in nodes {
      TargetsAreArcs(arcs, cur, t);
    }
    forall n | n in nodes
      ensures incoming[n] == Pending(arcs, n, before + {cur}) + Occurrences(Targets(arcs, cur), n)
    {
      PendingSplit(arcs, n, before, cur);
    }
  }

  method SettleArc<T(==)>(nodes: seq<T>, ghost arcs: seq<Arc<T>>, t: T, ghost rest: seq<T>, ghost done: seq<T>,
                          incoming0: map<T, int>, queue0: seq<T>)
    returns (incoming: map<T, int>, queue: seq<T>)
    requires t in nodes && PartlySettled(nodes, arcs, incoming0, ToSet(done), [t] + rest)
    requires QueueAgrees(nodes, incoming0, done, queue0)
    ensures PartlySettled(nodes, arcs, incoming, ToSet(done), rest)
    ensures QueueAgrees(nodes, incoming, done, queue)
  {
    DecrementSettles(nodes, arcs, incoming0, ToSet(done), t, rest);
    DecrementEnqueues(nodes, incoming0, done, queue0, t);
    incoming, queue := incoming0[t := incoming0[t] - 1], queue0;
    if incoming[t] == 0 {
      queue := queue + [t];
    }
  }

  /** The inner loop of the queue check, over the `outgoing` list of the dequeued node. */
  method SettleArcs<T(==)>(nodes: seq<T>, ghost arcs: seq<Arc<T>>, targets: seq<T>, ghost done: seq<T>,
                           incoming0: map<T, int>, queue0: seq<T>)
    returns (incoming: map<T, int>, queue: seq<T>)
    requires forall t :: t in targets ==> t in nodes
    requires PartlySettled(nodes, arcs, incoming0, ToSet(done), targets)
    requires QueueAgrees(nodes, incoming0, done, queue0)
    ensures PartlySettled(nodes, arcs, incoming, ToSet(done), [])
    ensures QueueAgrees(nodes, incoming, done, queue)
  {
    incoming, queue := incoming0, queue0;
    var rest := targets;
    while rest != []
      invariant forall t :: t in rest ==> t in nodes
      invariant PartlySettled(nodes, arcs, incoming, ToSet(done), rest)
      invariant QueueAgrees(nodes, incoming, done, queue)
    {
      assert rest == [rest[0]] + rest[1..];
      incoming, queue := SettleArc(nodes, arcs, rest[0], rest[1..], done, incoming, queue);
      rest := rest[1..];
    }
  }

  lemma {:induction false} DequeueKeepsOrder<T>(arcs: seq<Arc<T>>, done: seq<T>, cur: T)
    requires RespectsArcs(arcs, done) && cur !in done
    requires forall a :: a in arcs && (a.dst == cur || a.dst in done) ==> a.src in done
    ensures RespectsArcs(arcs, done + [cur])
  {
    var longer := done + [cur];
    forall i, j | 0 <= i < |longer| && 0 <= j < |longer| && Arc(longer[i], longer[j]) in arcs
      ensures i < j
    {
      var a := Arc(longer[i], longer[j]);
      assert a.src in done;
      if i == |done| { assert false; }
    }
  }

  /** Unreached nodes all wait for another unreached node. */
  lemma {:induction false} UnreachedAreStuck<T>(nodes: seq<T>, arcs: seq<Arc<T>>, incoming: map<T, int>, done: seq<T>)
    requires Closed(nodes, arcs)
    requires CountsAgree(nodes, arcs, incoming, ToSet(done))
    requires QueueAgrees(nodes, incoming, done, [])
    ensures Stuck(arcs, ToSet(nodes) - ToSet(done))
  {
    var u := ToSet(nodes) - ToSet(done);
    assert done + [] == done;
    forall x | x in u ensures HasPredecessor(arcs, u, x) {
      assert incoming[x] != 0;
      PendingZero(arcs, x, ToSet(done));
      var a :| a in arcs && a.dst == x && a.src !in ToSet(done);
      assert a.src in u && Arc(a.src, x) in arcs;
    }
  }

  lemma {:induction false} SameLengthCovers<T>(nodes: seq<T>, done: seq<T>)
    requires Distinct(nodes) && Distinct(done) && (forall n :: n in done ==> n in nodes)
    ensures |done| <= |nodes|
    ensures |done| == |nodes| <==> ToSet(nodes) - ToSet(done) == {}
    ensures |done| == |nodes| <==> ToSet(done) == ToSet(nodes)
  {
    DistinctFits(done, ToSet(nodes));
    DistinctSize(nodes);
    DistinctSize(done);
    assert ToSet(done) <= ToSet(nodes);
    assert |ToSet(nodes) - ToSet(done)| == |ToSet(nodes)| - |ToSet(done)|;
    assert ToSet(nodes) == ToSet(done) + (ToSet(nodes) - ToSet(done));
  }

  lemma {:induction false} DistinctSize<T>(s: seq<T>)
    requires Distinct(s)
    ensures |ToSet(s)| == |s|
  {
    if s != [] {
      var rest := s[..|s| - 1];
      DistinctSize(rest);
      assert s[|s| - 1] !in rest;
      assert ToSet(s) == ToSet(rest) + {s[|s| - 1]};
    }
  }

  lemma {:induction false} PrefixDistinct<T>(a: seq<T>, b: seq<T>)
    requires Distinct(a + b)
    ensures Distinct(a) && forall x :: x in a ==> x !in b
  {
    var s := a + b;
    forall i, j | 0 <= i < j < |a| ensures a[i] != a[j] {
      assert s[i] != s[j];
    }
    forall i, j | 0 <= i < |a| && 0 <= j < |b| ensures a[i] != b[j] {
      assert s[i] != s[|a| + j];
    }
  }

  /** What holds each time the queue loop is entered. */
  ghost predicate LoopInvariant<T>(nodes: seq<T>, arcs: seq<Arc<T>>, incoming: map<T, int>, done: seq<T>, queue: seq<T>) {
    && CountsAgree(nodes, arcs, incoming, ToSet(done))
    && QueueAgrees(nodes, incoming, done, queue)
    && RespectsArcs(arcs, done)
  }

  lemma {:induction false} Dequeue<T>(nodes: seq<T>, arcs: seq<Arc<T>>, incoming: map<T, int>, done: seq<T>, cur: T, queue: seq<T>)
    requires Distinct(nodes) && Closed(nodes, arcs) && LoopInvariant(nodes, arcs, incoming, done, [cur] + queue)
    ensures PartlySettled(nodes, arcs, incoming, ToSet(done + [cur]), Targets(arcs, cur))
    ensures forall t :: t in Targets(arcs, cur) ==> t in nodes
    ensures QueueAgrees(nodes, incoming, done + [cur], queue)
    ensures RespectsArcs(arcs, done + [cur])
    ensures |done| < |nodes|
  {
    assert done + ([cur] + queue) == (done + [cur]) + queue;
    PrefixDistinct(done + [cur], queue);
    PrefixDistinct(done, [cur]);
    SameLengthCovers(nodes, done + [cur]);
    DequeueOpens(nodes, arcs, incoming, ToSet(done), cur);
    assert ToSet(done + [cur]) == ToSet(done) + {cur};
    forall a | a in arcs && (a.dst == cur || a.dst in done) ensures a.src in done {
      assert a.dst in done + ([cur] + queue);
      PendingZero(arcs, a.dst, ToSet(done));
    }
    DequeueKeepsOrder(arcs, done, cur);
  }

  lemma {:induction false} EmptyQueueDecides<T(!new)>(nodes: seq<T>, arcs: seq<Arc<T>>, incoming: map<T, int>, done: seq<T>)
    requires Distinct(nodes) && Closed(nodes, arcs) && LoopInvariant(nodes, arcs, incoming, done, [])
    ensures |done| == |nodes| <==> !HasCycle(arcs)
    ensures |done| == |nodes| ==> TopologicalOrder(nodes, arcs, done)
  {
    assert done + [] == done;
    SameLengthCovers(nodes, done);
    if |done| == |nodes| {
      OrderExcludesCycles(nodes, arcs, done);
    } else {
      UnreachedAreStuck(nodes, arcs, incoming, done);
      StuckSetHasCycle(arcs, ToSet(nodes) - ToSet(done));
    }
  }

  /** `build`'s acyclicity decision (libs/client/src/grafy_client/graph_builder.py:513-530). `order` is the order in
      which the queue hands the nodes out. */
  method QueueCheck<T(==, !new)>(nodes: seq<T>, arcs: seq<Arc<T>>) returns (acyclic: bool, ghost order: seq<T>)
    requires Distinct(nodes) && Closed(nodes, arcs)
    ensures acyclic <==> !HasCycle(arcs)
    ensures acyclic ==> TopologicalOrder(nodes, arcs, order)
  {
    var incoming, outgoing := CountArcs(nodes, arcs);
    var queue := InitialQueue(nodes, incoming);
    order := [];
    assert ToSet(order) == {};
    var visitedCount := 0;
    while queue != []
      invariant visitedCount == |order|
      invariant LoopInvariant(nodes, arcs, incoming, order, queue)
      decreases |nodes| - |order|
    {
      var cur := queue[0];
      assert queue == [cur] + queue[1..];
      queue := queue[1..];
      Dequeue(nodes, arcs, incoming, order, cur, queue);
      visitedCount := visitedCount + 1;
      order := order + [cur];
      incoming, queue := SettleArcs(nodes, arcs, ListOf(outgoing, cur), order, incoming, queue);
    }
    EmptyQueueDecides(nodes, arcs, incoming, order);
    acyclic := visitedCount == |nodes|;
  }
}
