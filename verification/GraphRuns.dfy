/** Every run of authoring calls, failing ones included, keeps the invariant. */
module GraphRuns {
  import opened Text
  import opened Artifacts
  import opened GraphModel
  import opened GraphInvariants

  // ---------------------------------------------------------------- adding nodes

  lemma {:induction false} AddedKeeps(s: State, a: Addition)
    requires Inv(s) && Added(s, a).Ok?
    ensures Inv(Added(s, a).value) && Extends(s, Added(s, a).value)
  {
    var t := Added(s, a).value;
    assert t.nodes[|s.nodes|].id == NodeId(|s.nodes| + 1, a.loweredId);
    assert IsNodeId(t.nodes[|s.nodes|].id, |s.nodes| + 1);
    NodeIdsDistinct(t);
    SameEdgesKeep(s, t);
  }

  /** The part of the invariant that speaks about edges. */
  ghost predicate EdgeInv(s: State) {
    EdgesTyped(s) && PlugsExist(s) && PlugsUsedOnce(s) && InputsUsedOnce(s)
  }

  lemma {:induction false} SamePlugsExist(s: State, t: State)
    requires EdgesTyped(s) && PlugsExist(s) && Extends(s, t) && s.edges == t.edges && NodesDistinct(t.nodes)
    ensures PlugsExist(t)
  {
    forall k, j | 0 <= k < |t.edges| && 0 <= j < |t.nodes| && t.edges[k].toPlug.Some? && t.nodes[j].id == t.edges[k].toNode
      ensures HasPlug(t.nodes[j], t.edges[k].toPlug.value, t.edges[k].toPort)
    {
      EndsAreOld(s, t, k, j);
      assert NodeGrew(s.nodes[j], t.nodes[j]);
      HasPlugSurvives(s.nodes[j], t.nodes[j], t.edges[k].toPlug.value, t.edges[k].toPort);
    }
  }

  /** New nodes do not disturb what is known about the edges. */
  lemma {:induction false} SameEdgesKeep(s: State, t: State)
    requires EdgeInv(s) && Extends(s, t) && s.edges == t.edges && NodesDistinct(t.nodes)
    ensures EdgeInv(t)
  {
    forall k | 0 <= k < |t.edges| ensures Typed(t, t.edges[k]) {
      TypingSurvives(s, t, s.edges[k]);
    }
    SamePlugsExist(s, t);
    forall a, b, j | 0 <= a < b < |t.edges| && 0 <= j < |t.nodes|
        && t.nodes[j].id == t.edges[b].toNode && SavedExactly(t.nodes[j].catalog.inputs, t.edges[b].toPort)
        && SameInput(t.edges[a], t.edges[b])
      ensures InputIsVariadic(t.nodes[j], t.edges[b].toPort)
    {
      EndsAreOld(s, t, b, j);
      assert NodeGrew(s.nodes[j], t.nodes[j]);
    }
  }

  /** Edges end at nodes that were there when they were made. */
  lemma {:induction false} EndsAreOld(s: State, t: State, k: nat, j: nat)
    requires EdgesTyped(s) && NodesDistinct(t.nodes) && Extends(s, t) && k < |s.edges|
    requires j < |t.nodes| && t.nodes[j].id == s.edges[k].toNode
    ensures j < |s.nodes| && s.nodes[j].id == s.edges[k].toNode
  {
    var i: nat, j': nat, sp, tp, types :| TypedAs(s, s.edges[k], i, j', sp, tp, types);
    assert NodeGrew(s.nodes[j'], t.nodes[j']);
  }

  // ---------------------------------------------------------------- connecting

  /** The parts of an accepted connection. */
  ghost predicate Accepts(s: State, l: Link, ends: Ends, types: Types) {
    && Locate(s, l) == Ok(ends)
    && FitShape(ends.output, ends.input, l.mapped).None?
    && Infer(s.conversions, Resolved(s.nodes[ends.i], ends.output), Resolved(s.nodes[ends.j], ends.input), l.path) == Ok(types)
    && (ends.input.variadic || !InputTaken?(s.edges, l.target))
    && EdgeFits(|s.edges| + 1, l, NewPlug(s.nodes[ends.j], ends.input))
  }

  ghost function After(s: State, l: Link, ends: Ends, types: Types): State
    requires ends.i < |s.nodes| && ends.j < |s.nodes|
  {
    var plug := NewPlug(s.nodes[ends.j], ends.input);
    s.(nodes := Attached(s.nodes, ends, types, plug), edges := s.edges + [NewEdge(|s.edges| + 1, l, plug)])
  }

  lemma {:induction false} ConnectedParts(s: State, l: Link) returns (ends: Ends, types: Types)
    requires Connected(s, l).Ok?
    ensures Accepts(s, l, ends, types) && Connected(s, l).value == After(s, l, ends, types)
  {
    ends := Locate(s, l).value;
    types := Infer(s.conversions, Resolved(s.nodes[ends.i], ends.output), Resolved(s.nodes[ends.j], ends.input), l.path).value;
  }

  lemma {:induction false} PartsConnect(s: State, l: Link, ends: Ends, types: Types)
    requires Accepts(s, l, ends, types)
    ensures Connected(s, l) == Ok(After(s, l, ends, types))
  {
  }

  lemma {:induction false} AttachedGrows(s: State, l: Link, ends: Ends, types: Types)
    requires ends.i < |s.nodes| && ends.j < |s.nodes|
    ensures Extends(s, After(s, l, ends, types))
  {
    var t := After(s, l, ends, types);
    forall n | 0 <= n < |s.nodes| ensures NodeGrew(s.nodes[n], t.nodes[n]) {
    }
  }

  lemma {:induction false} AttachedShape(nodes: seq<Authored>, ends: Ends, types: Types, plug: Option<Plug>, n: nat)
    requires ends.i < |nodes| && ends.j < |nodes| && n < |nodes|
    ensures var after := Attached(nodes, ends, types, plug)[n];
            && after.id == nodes[n].id && after.catalog == nodes[n].catalog
            && after.plugs == if n == ends.j && plug.Some? then nodes[n].plugs + [plug.value] else nodes[n].plugs
  {
  }

  lemma {:induction false} NextPlugNumbered(plugs: seq<Plug>, plug: Plug)
    requires PlugsNumbered(plugs) && plug.id == PlugId(|plugs| + 1)
    ensures PlugsNumbered(plugs + [plug])
  {
  }

  lemma {:induction false} NextEdgeNumbered(edges: seq<Edge>, e: Edge)
    requires EdgesNumbered(edges) && e.id == EdgeId(|edges| + 1)
    ensures EdgesNumbered(edges + [e])
  {
  }

  lemma {:induction false} AttachedNodesNumbered(nodes: seq<Authored>, ends: Ends, types: Types, plug: Option<Plug>)
    requires NodesNumbered(nodes) && ends.i < |nodes| && ends.j < |nodes|
    requires plug.Some? ==> plug.value.id == PlugId(|nodes[ends.j].plugs| + 1)
    ensures NodesNumbered(Attached(nodes, ends, types, plug))
  {
    var after := Attached(nodes, ends, types, plug);
    forall n | 0 <= n < |nodes| ensures IsNodeId(after[n].id, n + 1) && PlugsNumbered(after[n].plugs) {
      AttachedShape(nodes, ends, types, plug, n);
      assert IsNodeId(nodes[n].id, n + 1) && PlugsNumbered(nodes[n].plugs);
      if n == ends.j && plug.Some? { NextPlugNumbered(nodes[n].plugs, plug.value); }
    }
  }

  lemma {:induction false} AttachedNumbered(s: State, l: Link, ends: Ends, types: Types)
    requires Numbered(s) && ends.i < |s.nodes| && ends.j < |s.nodes|
    ensures Numbered(After(s, l, ends, types))
  {
    var plug := NewPlug(s.nodes[ends.j], ends.input);
    var e := NewEdge(|s.edges| + 1, l, plug);
    AttachedNodesNumbered(s.nodes, ends, types, plug);
    NextEdgeNumbered(s.edges, e);
    assert After(s, l, ends, types).edges == s.edges + [e];
  }

  lemma {:induction false} BoundIsKnown(node: Authored, port: Port, key: TypeKey)
    requires port in node.catalog.inputs + node.catalog.outputs && node.bindings.Keys <= Variables(node.catalog)
    ensures Bound(node, port, key).catalog == node.catalog && Bound(node, port, key).bindings.Keys <= Variables(node.catalog)
  {
  }

  lemma {:induction false} AttachedBindings(s: State, l: Link, ends: Ends, types: Types)
    requires BindingsKnown(s) && Locate(s, l) == Ok(ends)
    ensures BindingsKnown(After(s, l, ends, types))
  {
    var sourceBound := s.nodes[ends.i := Bound(s.nodes[ends.i], ends.output, types.source)];
    BoundIsKnown(s.nodes[ends.i], ends.output, types.source);
    BoundIsKnown(sourceBound[ends.j], ends.input, types.target);
  }

  /** Both ends have a type once the connection is made. */
  lemma {:induction false} AttachedResolves(s: State, ends: Ends, types: Types, plug: Option<Plug>, path: seq<ConversionRef>)
    requires ends.i < |s.nodes| && ends.j < |s.nodes|
    requires Infer(s.conversions, Resolved(s.nodes[ends.i], ends.output), Resolved(s.nodes[ends.j], ends.input), path) == Ok(types)
    ensures var nodes := Attached(s.nodes, ends, types, plug);
            && Resolved(nodes[ends.i], ends.output) == Some(types.source)
            && Resolved(nodes[ends.j], ends.input) == Some(types.target)
  {
    InferExact(s.conversions, Resolved(s.nodes[ends.i], ends.output), Resolved(s.nodes[ends.j], ends.input), path,
        types.source, types.target);
  }

  lemma {:induction false} NewEdgeRuns(s: State, l: Link, ends: Ends, types: Types, e: Edge, a: Authored, b: Authored)
    requires Locate(s, l) == Ok(ends) && FitShape(ends.output, ends.input, l.mapped).None?
    requires Infer(s.conversions, Resolved(s.nodes[ends.i], ends.output), Resolved(s.nodes[ends.j], ends.input), l.path) == Ok(types)
    requires e.fromPort == Strip(l.source.port) && e.toPort == Strip(l.target.port) && e.path == l.path && e.mapped == l.mapped
    requires e.toPlug.Some? <==> ends.input.instancePlugs
    requires a.catalog == s.nodes[ends.i].catalog && b.catalog == s.nodes[ends.j].catalog
    requires Resolved(a, ends.output) == Some(types.source) && Resolved(b, ends.input) == Some(types.target)
    ensures exists keys :: Runs(s.conversions, a, b, e, l.source.port, l.target.port, keys)
  {
    InferExact(s.conversions, Resolved(s.nodes[ends.i], ends.output), Resolved(s.nodes[ends.j], ends.input), l.path,
        types.source, types.target);
    var keys :| TypePath(s.conversions, l.path, keys) && keys[0] == types.source && keys[|l.path|] == types.target;
    assert Runs(s.conversions, a, b, e, l.source.port, l.target.port, keys);
  }

  lemma {:induction false} NewEdgeTyped(s: State, l: Link, ends: Ends, types: Types)
    requires Numbered(s) && Accepts(s, l, ends, types)
    ensures var t := After(s, l, ends, types); Typed(t, t.edges[|s.edges|])
  {
    var t := After(s, l, ends, types);
    var e := t.edges[|s.edges|];
    NodeIdsClean(s, ends.i);
    NodeIdsClean(s, ends.j);
    AttachedResolves(s, ends, types, NewPlug(s.nodes[ends.j], ends.input), l.path);
    AttachedShape(s.nodes, ends, types, NewPlug(s.nodes[ends.j], ends.input), ends.i);
    AttachedShape(s.nodes, ends, types, NewPlug(s.nodes[ends.j], ends.input), ends.j);
    NewEdgeRuns(s, l, ends, types, e, t.nodes[ends.i], t.nodes[ends.j]);
    var keys :| Runs(t.conversions, t.nodes[ends.i], t.nodes[ends.j], e, l.source.port, l.target.port, keys);
    assert TypedAs(t, e, ends.i, ends.j, l.source.port, l.target.port, keys);
  }

  /** What is left to know about an accepted connection: `t` has one more edge, `e`, which
      ends at node `j`. */
  ghost predicate OneMore(s: State, t: State, e: Edge, j: nat) {
    && Extends(s, t) && NodesDistinct(t.nodes)
    && |t.nodes| == |s.nodes| && t.edges == s.edges + [e]
    && j < |t.nodes| && t.nodes[j].id == e.toNode
  }

  lemma {:induction false} OneMoreTyped(s: State, t: State, e: Edge, j: nat)
    requires OneMore(s, t, e, j) && EdgesTyped(s) && Typed(t, e)
    ensures EdgesTyped(t)
  {
    forall k | 0 <= k < |t.edges| ensures Typed(t, t.edges[k]) {
      if k < |s.edges| { TypingSurvives(s, t, s.edges[k]); }
    }
  }

  lemma {:induction false} HasPlugSurvives(a: Authored, b: Authored, id: string, port: string)
    requires NodeGrew(a, b) && HasPlug(a, id, port)
    ensures HasPlug(b, id, port)
  {
    var k :| 0 <= k < |a.plugs| && a.plugs[k] == Plug(id, port);
    assert b.plugs[k] == Plug(id, port);
  }

  lemma {:induction false} OneMorePlugs(s: State, t: State, e: Edge, j: nat)
    requires OneMore(s, t, e, j) && PlugsExist(s) && PlugsUsedOnce(s)
    requires e.toPlug.Some? ==> HasPlug(t.nodes[j], e.toPlug.value, e.toPort)
    requires forall a :: 0 <= a < |s.edges| && s.edges[a].toPlug.Some? ==> !SamePlug(s.edges[a], e)
    ensures PlugsExist(t) && PlugsUsedOnce(t)
  {
    forall k, n | 0 <= k < |t.edges| && 0 <= n < |t.nodes| && t.edges[k].toPlug.Some? && t.nodes[n].id == t.edges[k].toNode
      ensures HasPlug(t.nodes[n], t.edges[k].toPlug.value, t.edges[k].toPort)
    {
      assert NodeGrew(s.nodes[n], t.nodes[n]);
      if k < |s.edges| {
        HasPlugSurvives(s.nodes[n], t.nodes[n], s.edges[k].toPlug.value, s.edges[k].toPort);
      } else {
        assert n == j;
      }
    }
  }

  lemma {:induction false} OneMoreInput(s: State, t: State, e: Edge, j: nat)
    requires OneMore(s, t, e, j) && InputsUsedOnce(s)
    requires SavedExactly(t.nodes[j].catalog.inputs, e.toPort) && (exists a :: 0 <= a < |s.edges| && SameInput(s.edges[a], e))
             ==> InputIsVariadic(t.nodes[j], e.toPort)
    ensures InputsUsedOnce(t)
  {
    forall a, b, n | 0 <= a < b < |t.edges| && 0 <= n < |t.nodes|
        && t.nodes[n].id == t.edges[b].toNode && SavedExactly(t.nodes[n].catalog.inputs, t.edges[b].toPort)
        && SameInput(t.edges[a], t.edges[b])
      ensures InputIsVariadic(t.nodes[n], t.edges[b].toPort)
    {
      assert NodeGrew(s.nodes[n], t.nodes[n]);
      if b < |s.edges| {
        assert SameInput(s.edges[a], s.edges[b]);
        assert InputIsVariadic(s.nodes[n], s.edges[b].toPort);
      } else {
        assert n == j && SameInput(s.edges[a], e);
      }
    }
  }

  /** The plug made for a new edge is not one an earlier edge already uses. */
  lemma {:induction false} NewPlugUnused(s: State, e: Edge, j: nat)
    requires PlugsExist(s) && j < |s.nodes| && e.toNode == s.nodes[j].id
    requires e.toPlug.Some? ==> FreshPlug(s.nodes[j].plugs, e.toPlug.value)
    ensures forall a :: 0 <= a < |s.edges| && s.edges[a].toPlug.Some? ==> !SamePlug(s.edges[a], e)
  {
    forall a | 0 <= a < |s.edges| && s.edges[a].toPlug.Some? ensures !SamePlug(s.edges[a], e) {
      if s.edges[a].toNode == e.toNode {
        assert HasPlug(s.nodes[j], s.edges[a].toPlug.value, s.edges[a].toPort);
      }
    }
  }

  lemma {:induction false} AttachedHasPlug(nodes: seq<Authored>, ends: Ends, types: Types, plug: Plug)
    requires ends.i < |nodes| && ends.j < |nodes|
    ensures HasPlug(Attached(nodes, ends, types, Some(plug))[ends.j], plug.id, plug.port)
  {
    AttachedShape(nodes, ends, types, Some(plug), ends.j);
    var plugs := Attached(nodes, ends, types, Some(plug))[ends.j].plugs;
    assert plugs[|plugs| - 1] == plug;
  }

  lemma {:induction false} NewEdgeInput(s: State, l: Link, ends: Ends, e: Edge)
    requires Locate(s, l) == Ok(ends) && (ends.input.variadic || !InputTaken?(s.edges, l.target))
    requires FitShape(ends.output, ends.input, l.mapped).None? && FitsIdentifier(l.target.port)
    requires e.toNode == l.target.nodeId && e.toPort == Strip(l.target.port)
    requires SavedExactly(s.nodes[ends.j].catalog.inputs, e.toPort)
    requires exists a :: 0 <= a < |s.edges| && SameInput(s.edges[a], e)
    ensures InputIsVariadic(s.nodes[ends.j], e.toPort)
  {
    assert Live(s.nodes[ends.j].catalog.inputs, ends.input);
    TrimFixesClean(l.target.port, IsSpace);
    var a :| 0 <= a < |s.edges| && SameInput(s.edges[a], e);
    assert s.edges[a].toNode == l.target.nodeId && s.edges[a].toPort == l.target.port;
  }

  lemma {:induction false} AfterIsOneMore(s: State, l: Link, ends: Ends, types: Types)
    requires Numbered(s) && Locate(s, l) == Ok(ends)
    ensures OneMore(s, After(s, l, ends, types), NewEdge(|s.edges| + 1, l, NewPlug(s.nodes[ends.j], ends.input)), ends.j)
  {
    AttachedGrows(s, l, ends, types);
    AttachedNumbered(s, l, ends, types);
    NodeIdsDistinct(After(s, l, ends, types));
    NodeIdsClean(s, ends.j);
    assert NodeGrew(s.nodes[ends.j], After(s, l, ends, types).nodes[ends.j]);
  }

  lemma {:induction false} AttachedPlugs(s: State, t: State, e: Edge, ends: Ends, types: Types, plug: Option<Plug>)
    requires PlugsExist(s) && PlugsUsedOnce(s) && OneMore(s, t, e, ends.j) && ends.i < |s.nodes|
    requires t.nodes == Attached(s.nodes, ends, types, plug)
    requires e.toPlug == (if plug.Some? then Some(plug.value.id) else None)
    requires plug.Some? ==> plug.value.port == e.toPort && FreshPlug(s.nodes[ends.j].plugs, plug.value.id)
    ensures PlugsExist(t) && PlugsUsedOnce(t)
  {
    AttachedShape(s.nodes, ends, types, plug, ends.j);
    NewPlugUnused(s, e, ends.j);
    if plug.Some? { AttachedHasPlug(s.nodes, ends, types, plug.value); }
    OneMorePlugs(s, t, e, ends.j);
  }

  lemma {:induction false} NewPlugFresh(s: State, j: nat, input: Port)
    requires Numbered(s) && j < |s.nodes|
    ensures var plug := NewPlug(s.nodes[j], input); plug.Some? ==> FreshPlug(s.nodes[j].plugs, plug.value.id)
  {
    NextPlugIsFresh(s.nodes[j].plugs);
  }

  lemma {:induction false} AfterPlugs(s: State, t: State, l: Link, ends: Ends, types: Types, plug: Option<Plug>, number: nat)
    requires PlugsExist(s) && PlugsUsedOnce(s) && Locate(s, l) == Ok(ends) && plug == NewPlug(s.nodes[ends.j], ends.input)
    requires t.nodes == Attached(s.nodes, ends, types, plug) && OneMore(s, t, NewEdge(number, l, plug), ends.j)
    requires plug.Some? ==> FreshPlug(s.nodes[ends.j].plugs, plug.value.id)
    ensures PlugsExist(t) && PlugsUsedOnce(t)
  {
    AttachedPlugs(s, t, NewEdge(number, l, plug), ends, types, plug);
  }

  lemma {:induction false} AfterInputs(s: State, l: Link, ends: Ends, types: Types)
    requires Numbered(s) && InputsUsedOnce(s) && Accepts(s, l, ends, types)
    ensures InputsUsedOnce(After(s, l, ends, types))
  {
    var e := NewEdge(|s.edges| + 1, l, NewPlug(s.nodes[ends.j], ends.input));
    var t := After(s, l, ends, types);
    AfterIsOneMore(s, l, ends, types);
    NodeIdsClean(s, ends.j);
    if SavedExactly(s.nodes[ends.j].catalog.inputs, e.toPort) && exists a :: 0 <= a < |s.edges| && SameInput(s.edges[a], e) {
      NewEdgeInput(s, l, ends, e);
    }
    AttachedShape(s.nodes, ends, types, NewPlug(s.nodes[ends.j], ends.input), ends.j);
    OneMoreInput(s, t, e, ends.j);
  }

  lemma {:induction false} AfterTyped(s: State, l: Link, ends: Ends, types: Types)
    requires Numbered(s) && EdgesTyped(s) && Accepts(s, l, ends, types)
    ensures EdgesTyped(After(s, l, ends, types))
  {
    AfterIsOneMore(s, l, ends, types);
    NewEdgeTyped(s, l, ends, types);
    OneMoreTyped(s, After(s, l, ends, types), NewEdge(|s.edges| + 1, l, NewPlug(s.nodes[ends.j], ends.input)), ends.j);
  }

  lemma {:induction false} ConnectedKeeps(s: State, l: Link)
    requires Inv(s) && Connected(s, l).Ok?
    ensures Inv(Connected(s, l).value) && Extends(s, Connected(s, l).value)
  {
    var ends, types := ConnectedParts(s, l);
    AttachedNumbered(s, l, ends, types);
    AttachedBindings(s, l, ends, types);
    AttachedGrows(s, l, ends, types);
    AfterTyped(s, l, ends, types);
    AfterIsOneMore(s, l, ends, types);
    NewPlugFresh(s, ends.j, ends.input);
    AfterPlugs(s, After(s, l, ends, types), l, ends, types, NewPlug(s.nodes[ends.j], ends.input), |s.edges| + 1);
    AfterInputs(s, l, ends, types);
  }

  // ---------------------------------------------------------------- whole runs

  lemma {:induction false} StepKeeps(s: State, c: Call)
    requires Inv(s)
    ensures Inv(Step(s, c)) && Extends(s, Step(s, c))
  {
    match c
    case Add(a) => if Added(s, a).Ok? { AddedKeeps(s, a); }
    case Connect(l) => if Connected(s, l).Ok? { ConnectedKeeps(s, l); }
  }

  lemma {:induction false} RunKeeps(s: State, calls: seq<Call>)
    requires Inv(s)
    ensures Inv(Run(s, calls)) && Extends(s, Run(s, calls))
    decreases |calls|
  {
    if calls != [] {
      StepKeeps(s, calls[0]);
      RunKeeps(Step(s, calls[0]), calls[1..]);
      ExtendsTransitive(s, Step(s, calls[0]), Run(s, calls));
    }
  }

  lemma {:induction false} RunOneMore(s: State, calls: seq<Call>, c: Call)
    ensures Run(s, calls + [c]) == Step(Run(s, calls), c)
  {
    RunAppends(s, calls, [c]);
    assert [c][1..] == [];
  }

  /** After any sequence of calls on a new builder: bindings set at an earlier point of the
      run are unchanged at its end, every edge is typed, and nothing collides. */
  lemma {:induction false} EveryRun(identity: nat, conversions: seq<Conversion>, earlier: seq<Call>, later: seq<Call>)
    ensures var s := Run(Initial(identity, conversions), earlier);
            var t := Run(Initial(identity, conversions), earlier + later);
            Inv(t) && Extends(s, t)
  {
    var start := Initial(identity, conversions);
    RunKeeps(start, earlier);
    RunAppends(start, earlier, later);
    RunKeeps(Run(start, earlier), later);
  }

  lemma {:induction false} RunAppends(s: State, a: seq<Call>, b: seq<Call>)
    ensures Run(s, a + b) == Run(Run(s, a), b)
    decreases |a|
  {
    if a == [] {
      assert a + b == b;
    } else {
      assert (a + b)[1..] == a[1..] + b;
      RunAppends(Step(s, a[0]), a[1..], b);
    }
  }
}
