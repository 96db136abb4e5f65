/** The graph builder object: nodes and edges that grow in place, and `build`. */
module GraphBuilding {
  import opened Text
  import opened Artifacts
  import opened GraphModel
  import opened GraphInvariants
  import GraphRuns
  import T = Topology

  // ---------------------------------------------------------------- the saved document

  datatype DocumentNode = DocumentNode(
    id: string, operatorId: string, operatorVersion: int, plugs: seq<Plug>, bindings: map<string, TypeKey>)

  datatype Document = Document(nodes: seq<DocumentNode>, edges: seq<Edge>)

  predicate TypeKeyFits(key: TypeKey) {
    1 <= |key.id| <= MAX_IDENTIFIER && Clean(key.id, IsPythonSpace) && key.version >= 1
  }

  /** What the saved-node model demands of one authored node. */
  predicate NodeFits(node: Authored) {
    && FitsIdentifier(node.id)
    && FitsIdentifier(node.catalog.operatorId)
    && node.catalog.operatorVersion >= 1
    && (forall v :: v in node.bindings ==> FitsIdentifier(v) && TypeKeyFits(node.bindings[v]))
    && (forall v, w :: v in node.bindings && w in node.bindings && Strip(v) == Strip(w) ==> v == w)
  }

  function DocumentNodeOf(node: Authored): DocumentNode {
    DocumentNode(Strip(node.id), Strip(node.catalog.operatorId), node.catalog.operatorVersion, node.plugs, node.bindings)
  }

  function DocumentOf(s: State): Document {
    Document(seq(|s.nodes|, i requires 0 <= i < |s.nodes| => DocumentNodeOf(s.nodes[i])), s.edges)
  }

  ghost predicate DocumentHasPlug(node: DocumentNode, id: string, port: string) {
    exists k :: 0 <= k < |node.plugs| && node.plugs[k] == Plug(id, port)
  }

  ghost predicate IdsUnique(d: Document) {
    && (forall i, j :: 0 <= i < j < |d.nodes| ==> d.nodes[i].id != d.nodes[j].id)
    && (forall i, j :: 0 <= i < j < |d.edges| ==> d.edges[i].id != d.edges[j].id)
    && (forall n :: 0 <= n < |d.nodes| ==> PlugIdsUnique(d.nodes[n].plugs))
  }

  ghost predicate PlugIdsUnique(plugs: seq<Plug>) {
    forall i, j :: 0 <= i < j < |plugs| ==> plugs[i].id != plugs[j].id
  }

  ghost predicate Known(nodes: seq<DocumentNode>, id: string) {
    exists i :: 0 <= i < |nodes| && nodes[i].id == id
  }

  ghost predicate EndsKnown(d: Document) {
    forall k :: 0 <= k < |d.edges| ==> Known(d.nodes, d.edges[k].fromNode) && Known(d.nodes, d.edges[k].toNode)
  }

  /** A plugged edge names a plug that exists, serves the edge's port, and takes no other edge. */
  ghost predicate PlugsServed(d: Document) {
    && (forall k, j :: 0 <= k < |d.edges| && 0 <= j < |d.nodes| && d.edges[k].toPlug.Some? && d.nodes[j].id == d.edges[k].toNode
          ==> DocumentHasPlug(d.nodes[j], d.edges[k].toPlug.value, d.edges[k].toPort))
    && (forall a, b :: 0 <= a < b < |d.edges| && d.edges[a].toPlug.Some? ==> !SamePlug(d.edges[a], d.edges[b]))
  }

  /** The structural rules a saved graph document is validated against
      (libs/core/src/grafy_core/domain/graph_documents.py:524-591). */
  ghost predicate WellStructured(d: Document) {
    IdsUnique(d) && EndsKnown(d) && PlugsServed(d)
  }

  lemma {:induction false} EdgeEnds(s: State, k: nat) returns (i: nat, j: nat)
    requires EdgesTyped(s) && k < |s.edges|
    ensures i < |s.nodes| && s.nodes[i].id == s.edges[k].fromNode
    ensures j < |s.nodes| && s.nodes[j].id == s.edges[k].toNode
  {
    var a: nat, b: nat, sp, tp, types :| TypedAs(s, s.edges[k], a, b, sp, tp, types);
    i, j := a, b;
  }

  lemma {:induction false} PlugNumbersUnique(plugs: seq<Plug>)
    requires PlugsNumbered(plugs)
    ensures PlugIdsUnique(plugs)
  {
    forall i, j | 0 <= i < j < |plugs| ensures plugs[i].id != plugs[j].id { NumberedIdInjective(i + 1, j + 1); }
  }

  lemma {:induction false} EdgeNumbersUnique(edges: seq<Edge>)
    requires EdgesNumbered(edges)
    ensures forall i, j :: 0 <= i < j < |edges| ==> edges[i].id != edges[j].id
  {
    forall i, j | 0 <= i < j < |edges| ensures edges[i].id != edges[j].id { NumberedIdInjective(i + 1, j + 1); }
  }

  ghost predicate SameIds(s: State, d: Document) {
    |d.nodes| == |s.nodes| && d.edges == s.edges
    && forall i :: 0 <= i < |s.nodes| ==> d.nodes[i].id == s.nodes[i].id && d.nodes[i].plugs == s.nodes[i].plugs
  }

  lemma {:induction false} DocumentIds(s: State)
    requires Numbered(s)
    ensures SameIds(s, DocumentOf(s))
  {
    forall i | 0 <= i < |s.nodes| ensures DocumentOf(s).nodes[i].id == s.nodes[i].id { NodeIdsClean(s, i); }
  }

  lemma {:induction false} DocumentIdsUnique(s: State, d: Document)
    requires Numbered(s) && SameIds(s, d)
    ensures IdsUnique(d)
  {
    NodeIdsDistinct(s);
    EdgeNumbersUnique(s.edges);
    forall n | 0 <= n < |d.nodes| ensures PlugIdsUnique(d.nodes[n].plugs) {
      PlugNumbersUnique(s.nodes[n].plugs);
    }
  }

  lemma {:induction false} DocumentEndsKnown(s: State, d: Document)
    requires EdgesTyped(s) && SameIds(s, d)
    ensures EndsKnown(d)
  {
    forall k | 0 <= k < |d.edges| ensures Known(d.nodes, d.edges[k].fromNode) && Known(d.nodes, d.edges[k].toNode) {
      var i, j := EdgeEnds(s, k);
      assert d.nodes[i].id == d.edges[k].fromNode && d.nodes[j].id == d.edges[k].toNode;
    }
  }

  lemma {:induction false} DocumentPlugsServed(s: State, d: Document)
    requires PlugsExist(s) && PlugsUsedOnce(s) && SameIds(s, d)
    ensures PlugsServed(d)
  {
    forall k, j | 0 <= k < |d.edges| && 0 <= j < |d.nodes| && d.edges[k].toPlug.Some? && d.nodes[j].id == d.edges[k].toNode
      ensures DocumentHasPlug(d.nodes[j], d.edges[k].toPlug.value, d.edges[k].toPort)
    {
      assert HasPlug(s.nodes[j], s.edges[k].toPlug.value, s.edges[k].toPort);
    }
  }

  /** The structural validator never rejects a document authored by a builder. */
  lemma {:induction false} DocumentsAreWellStructured(s: State)
    requires Inv(s)
    ensures WellStructured(DocumentOf(s))
  {
    DocumentIds(s);
    DocumentIdsUnique(s, DocumentOf(s));
    DocumentEndsKnown(s, DocumentOf(s));
    DocumentPlugsServed(s, DocumentOf(s));
  }

  // ---------------------------------------------------------------- what build demands

  ghost predicate Connects(edges: seq<Edge>, nodeId: string, port: string) {
    exists k :: 0 <= k < |edges| && edges[k].toNode == nodeId && edges[k].toPort == port
  }

  ghost predicate NodeComplete(node: Authored, edges: seq<Edge>) {
    && AllBound(node)
    && forall p :: p in node.catalog.inputs && p.required ==> Connects(edges, node.id, p.name)
  }

  predicate AllBound(node: Authored) { Variables(node.catalog) <= node.bindings.Keys }

  /** Node `i` is the first one that is not complete. */
  ghost predicate FirstGap(nodes: seq<Authored>, edges: seq<Edge>, i: nat) {
    i < |nodes| && !NodeComplete(nodes[i], edges) && forall k :: 0 <= k < i ==> NodeComplete(nodes[k], edges)
  }

  /** What is reported about a node that is not complete. */
  function GapOf(node: Authored): BuilderError { if AllBound(node) then MissingConnection else MissingBinding }

  ghost predicate Complete(s: State) {
    forall i :: 0 <= i < |s.nodes| ==> NodeComplete(s.nodes[i], s.edges)
  }

  ghost predicate Fits(s: State) {
    forall i :: 0 <= i < |s.nodes| ==> NodeFits(s.nodes[i])
  }

  function Arcs(edges: seq<Edge>): seq<T.Arc<string>> {
    seq(|edges|, k requires 0 <= k < |edges| => T.Arc(edges[k].fromNode, edges[k].toNode))
  }

  function Ids(nodes: seq<Authored>): seq<string> {
    seq(|nodes|, i requires 0 <= i < |nodes| => nodes[i].id)
  }

  ghost predicate EndsAuthored(ids: seq<string>, edges: seq<Edge>) {
    forall k :: 0 <= k < |edges| ==> edges[k].fromNode in ids && edges[k].toNode in ids
  }

  lemma {:induction false} EdgesEndAtNodes(s: State)
    requires EdgesTyped(s)
    ensures EndsAuthored(Ids(s.nodes), s.edges)
  {
    forall k | 0 <= k < |s.edges| ensures s.edges[k].fromNode in Ids(s.nodes) && s.edges[k].toNode in Ids(s.nodes) {
      var i, j := EdgeEnds(s, k);
      assert Ids(s.nodes)[i] == s.edges[k].fromNode && Ids(s.nodes)[j] == s.edges[k].toNode;
    }
  }

  lemma {:induction false} ReadyForQueue(s: State)
    requires Numbered(s) && EdgesTyped(s)
    ensures T.Distinct(Ids(s.nodes)) && T.Closed(Ids(s.nodes), Arcs(s.edges))
  {
    NodeIdsDistinct(s);
    EdgesEndAtNodes(s);
  }

  // ---------------------------------------------------------------- the builder

  method CollectConversions(conversions: seq<Conversion>, path: seq<ConversionRef>) returns (chain: Option<seq<Conversion>>)
    ensures chain == LookupAll(conversions, path)
  {
    var found := [];
    for k := 0 to |path|
      invariant LookupAll(conversions, path[..k]) == Some(found)
    {
      var matching := Matching(conversions, path[k]);
      assert path[..k + 1][..k] == path[..k];
      if |matching| != 1 {
        assert Lookup(conversions, path[k]).None?;
        return None;
      }
      found := found + [matching[0]];
    }
    assert path[..|path|] == path;
    return Some(found);
  }

  method FollowChain(chain: seq<Conversion>, start: TypeKey) returns (r: Result<TypeKey, BuilderError>)
    ensures r == Follow(chain, start, {start})
  {
    var current := start;
    var visited := {current};
    assert chain[0..] == chain;
    for k := 0 to |chain|
      invariant Follow(chain[k..], current, visited) == Follow(chain, start, {start})
    {
      if chain[k].source != current {
        return Err(ConversionMismatch);
      }
      if chain[k].target in visited {
        return Err(ConversionCycle);
      }
      current := chain[k].target;
      visited := visited + {current};
      assert chain[k..][1..] == chain[k + 1..];
    }
    return Ok(current);
  }

  method InferTypes(conversions: seq<Conversion>, source: Option<TypeKey>, target: Option<TypeKey>, path: seq<ConversionRef>)
    returns (r: Result<Types, BuilderError>)
    ensures r == Infer(conversions, source, target, path)
  {
    if source.None? && target.None? {
      return Err(TypeUnknown);
    }
    var chain := CollectConversions(conversions, path);
    if chain.None? {
      return Err(UnknownConversion);
    }
    var start;
    if source.Some? {
      start := source.value;
    } else if chain.value != [] {
      start := chain.value[0].source;
    } else {
      start := target.value;
    }
    var reached := FollowChain(chain.value, start);
    if reached.Err? {
      return Err(reached.error);
    }
    var inferredTarget := if target.None? then reached.value else target.value;
    if reached.value != inferredTarget {
      return Err(TypeMismatch);
    }
    return Ok(Types(start, inferredTarget));
  }

  method FindTargetEdge(edges: seq<Edge>, target: Handle) returns (taken: bool)
    ensures taken == InputTaken?(edges, target)
  {
    taken := false;
    for k := 0 to |edges|
      invariant taken == InputTaken?(edges[..k], target)
    {
      assert edges[..k + 1] == edges[..k] + [edges[k]];
      if edges[k].toNode == target.nodeId && edges[k].toPort == target.port {
        assert edges[..k + 1][k] == edges[k];
        taken := true;
      }
    }
    assert edges[..|edges|] == edges;
  }

  method CheckNode(node: Authored, edges: seq<Edge>) returns (gap: Option<BuilderError>)
    ensures gap.None? <==> NodeComplete(node, edges)
    ensures gap.Some? ==> gap.value == GapOf(node)
  {
    var missing := Variables(node.catalog) - node.bindings.Keys;
    if missing != {} {
      return Some(MissingBinding);
    }
    assert forall v :: v in Variables(node.catalog) ==> v !in missing;
    for p := 0 to |node.catalog.inputs|
      invariant forall q :: 0 <= q < p && node.catalog.inputs[q].required ==> Connects(edges, node.id, node.catalog.inputs[q].name)
    {
      var port := node.catalog.inputs[p];
      if port.required {
        var connected := FindTargetEdge(edges, Handle(0, node.id, port.name));
        if !connected {
          assert !Connects(edges, node.id, port.name);
          return Some(MissingConnection);
        }
      }
    }
    return None;
  }

  method CheckNodes(nodes: seq<Authored>, edges: seq<Edge>) returns (gap: Option<BuilderError>)
    ensures gap.None? <==> forall i :: 0 <= i < |nodes| ==> NodeComplete(nodes[i], edges)
    ensures gap.Some? ==> exists i: nat :: FirstGap(nodes, edges, i) && gap.value == GapOf(nodes[i])
  {
    for i := 0 to |nodes|
      invariant forall k :: 0 <= k < i ==> NodeComplete(nodes[k], edges)
    {
      gap := CheckNode(nodes[i], edges);
      if gap.Some? {
        assert FirstGap(nodes, edges, i);
        return;
      }
    }
    return None;
  }

  class GraphBuilder {
    const identity: nat
    const conversions: seq<Conversion>
    var nodes: seq<Authored>
    var edges: seq<Edge>

    ghost function Snapshot(): State
      reads this
    {
      State(identity, conversions, nodes, edges)
    }

    /** The calls made so far. */
    ghost var calls: seq<Call>

    /** The object is always in the state its calls lead to. */
    ghost predicate Valid()
      reads this
    {
      Snapshot() == Run(Initial(identity, conversions), calls)
    }

    constructor (identity: nat, conversions: seq<Conversion>)
      ensures Valid() && Snapshot() == Initial(identity, conversions)
    {
      this.identity, this.conversions := identity, conversions;
      nodes, edges, calls := [], [], [];
    }

    method AppendNode(addition: Addition) returns (r: Result<string, BuilderError>)
      requires Valid()
      modifies this
      ensures Valid() && calls == old(calls) + [Add(addition)]
      ensures Snapshot() == Step(old(Snapshot()), Add(addition))
      ensures r.Err? <==> Added(old(Snapshot()), addition).Err?
      ensures r.Err? ==> r.error == Added(old(Snapshot()), addition).error
      ensures r.Ok? ==> |nodes| == |old(nodes)| + 1 && nodes[|old(nodes)|].id == r.value
    {
      GraphRuns.RunOneMore(Initial(identity, conversions), calls, Add(addition));
      calls := calls + [Add(addition)];
      if !addition.catalog.runnable {
        return Err(NotRunnable);
      }
      var nodeNumber := |nodes| + 1;
      var id := NodeId(nodeNumber, addition.loweredId);
      if addition.bindings.Keys - Variables(addition.catalog) != {} {
        return Err(UnknownBinding);
      }
      assert forall v :: v in addition.bindings ==> v !in addition.bindings.Keys - Variables(addition.catalog);
      nodes := nodes + [Authored(id, addition.catalog, addition.bindings, [])];
      return Ok(id);
    }

    method Connect(link: Link) returns (r: Result<(), BuilderError>)
      requires Valid()
      modifies this
      ensures Valid() && calls == old(calls) + [GraphModel.Connect(link)]
      ensures Snapshot() == Step(old(Snapshot()), GraphModel.Connect(link))
      ensures r.Err? <==> Connected(old(Snapshot()), link).Err?
      ensures r.Err? ==> r.error == Connected(old(Snapshot()), link).error && Snapshot() == old(Snapshot())
    {
      GraphRuns.RunOneMore(Initial(identity, conversions), calls, GraphModel.Connect(link));
      calls := calls + [GraphModel.Connect(link)];
      if link.source.builder != identity || link.target.builder != identity {
        return Err(ForeignHandle);
      }
      var i := FindNode(nodes, link.source.nodeId);
      var j := FindNode(nodes, link.target.nodeId);
      if i.None? || j.None? {
        return Err(UnknownNode);
      }
      var output := FindPort(nodes[i.value].catalog.outputs, link.source.port);
      if output.None? {
        return Err(NoOutputPort);
      }
      var input := FindPort(nodes[j.value].catalog.inputs, link.target.port);
      if input.None? {
        return Err(NoInputPort);
      }
      var ends := Ends(i.value, j.value, output.value, input.value);
      var misfit := FitShape(ends.output, ends.input, link.mapped);
      if misfit.Some? {
        return Err(misfit.value);
      }
      var resolvedSource := Resolved(nodes[ends.i], ends.output);
      var resolvedTarget := Resolved(nodes[ends.j], ends.input);
      var types := InferTypes(conversions, resolvedSource, resolvedTarget, link.path);
      if types.Err? {
        return Err(types.error);
      }
      var taken := FindTargetEdge(edges, link.target);
      if !ends.input.variadic && taken {
        return Err(InputTaken);
      }
      var plug := NewPlug(nodes[ends.j], ends.input);
      if !EdgeFits(|edges| + 1, link, plug) {
        return Err(InvalidDocument);
      }
      var edge := NewEdge(|edges| + 1, link, plug);
      nodes := nodes[ends.i := Bound(nodes[ends.i], ends.output, types.value.source)];
      nodes := nodes[ends.j := Plugged(Bound(nodes[ends.j], ends.input, types.value.target), plug)];
      edges := edges + [edge];
      return Ok(());
    }

    method Build() returns (r: Result<Document, BuilderError>)
      requires Valid()
      ensures r.Ok? <==> Complete(Snapshot()) && !T.HasCycle(Arcs(edges)) && Fits(Snapshot())
      ensures !Complete(Snapshot()) ==> exists i: nat :: FirstGap(nodes, edges, i) && r == Err(GapOf(nodes[i]))
      ensures r == Err(CycleFound) <==> Complete(Snapshot()) && T.HasCycle(Arcs(edges))
      ensures r == Err(InvalidDocument) <==> Complete(Snapshot()) && !T.HasCycle(Arcs(edges)) && !Fits(Snapshot())
      ensures r.Ok? ==> r.value == DocumentOf(Snapshot()) && WellStructured(r.value)
      ensures r.Ok? ==> exists order :: T.TopologicalOrder(Ids(nodes), Arcs(edges), order)
    {
      GraphRuns.RunKeeps(Initial(identity, conversions), calls);
      var gap := CheckNodes(nodes, edges);
      if gap.Some? {
        return Err(gap.value);
      }
      ReadyForQueue(Snapshot());
      var acyclic, order := T.QueueCheck(Ids(nodes), Arcs(edges));
      if !acyclic {
        return Err(CycleFound);
      }
      if i :| 0 <= i < |nodes| && !NodeFits(nodes[i]) {
        return Err(InvalidDocument);
      }
      DocumentsAreWellStructured(Snapshot());
      return Ok(DocumentOf(State(identity, conversions, nodes, edges)));
    }
  }
}
