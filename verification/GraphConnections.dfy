/** When a connection is accepted and what it leaves, stated on the graph itself: nodes,
    ports, type paths and saved edges. */
module GraphConnections {
  import opened Text
  import opened Artifacts
  import opened GraphModel
  import opened GraphInvariants
  import opened GraphRuns

  ghost predicate FirstNode(nodes: seq<Authored>, id: string, i: nat) {
    i < |nodes| && nodes[i].id == id && forall k :: 0 <= k < i ==> nodes[k].id != id
  }

  ghost predicate FirstPort(ports: seq<Port>, name: string, port: Port) {
    exists n :: 0 <= n < |ports| && ports[n] == port && port.name == name && forall k :: 0 <= k < n ==> ports[k].name != name
  }

  /** The port has the type `key`, by declaration or by a binding of its variable. */
  ghost predicate HasType(node: Authored, port: Port, key: TypeKey) {
    match port.typ
    case Fixed(declared) => key == declared
    case Variable(v) => v in node.bindings && node.bindings[v] == key
  }

  /** A mapped connection takes a collection apart and cannot feed instance plugs. */
  ghost predicate ShapesFit(output: Port, input: Port, mapped: bool) {
    if mapped then output.shape == Many && !input.instancePlugs && One in input.accepted else output.shape in input.accepted
  }

  /** `types` leads along the conversions from one end to the other, at least one end has a
      type already, and neither has another one. */
  ghost predicate TypesFlow(s: State, l: Link, i: nat, j: nat, output: Port, input: Port, types: seq<TypeKey>)
    requires i < |s.nodes| && j < |s.nodes|
  {
    && TypePath(s.conversions, l.path, types)
    && (forall key :: HasType(s.nodes[i], output, key) ==> key == types[0])
    && (forall key :: HasType(s.nodes[j], input, key) ==> key == types[|l.path|])
    && exists key :: HasType(s.nodes[i], output, key) || HasType(s.nodes[j], input, key)
  }

  ghost predicate InputFree(s: State, l: Link) {
    forall e :: e in s.edges ==> !(e.toNode == l.target.nodeId && e.toPort == l.target.port)
  }

  /** The saved edge keeps to the identifier and hop limits. */
  ghost predicate Savable(s: State, l: Link, j: nat, input: Port)
    requires j < |s.nodes|
  {
    && |l.path| <= MAX_CONVERSION_HOPS
    && FitsIdentifier(EdgeId(|s.edges| + 1)) && FitsIdentifier(l.source.nodeId) && FitsIdentifier(l.source.port)
    && FitsIdentifier(l.target.nodeId) && FitsIdentifier(l.target.port)
    && (input.instancePlugs ==> FitsIdentifier(PlugId(|s.nodes[j].plugs| + 1)))
  }

  /** Everything a connection needs. */
  ghost predicate Joinable(s: State, l: Link, i: nat, j: nat, output: Port, input: Port, types: seq<TypeKey>) {
    && l.source.builder == s.identity && l.target.builder == s.identity
    && FirstNode(s.nodes, l.source.nodeId, i) && FirstNode(s.nodes, l.target.nodeId, j)
    && FirstPort(s.nodes[i].catalog.outputs, l.source.port, output)
    && FirstPort(s.nodes[j].catalog.inputs, l.target.port, input)
    && ShapesFit(output, input, l.mapped) && TypesFlow(s, l, i, j, output, input, types)
    && (input.variadic || InputFree(s, l)) && Savable(s, l, j, input)
  }

  // ---------------------------------------------------------------- what is left

  function VariableOf(port: Port): set<string> { if port.typ.Variable? then {port.typ.name} else {} }

  /** Old bindings stay; a variable of the source end that was free gets `from`, one of the
      target end gets `to`. */
  ghost predicate BindingsJoined(a: map<string, TypeKey>, b: map<string, TypeKey>, sources: set<string>,
                                 targets: set<string>, from: TypeKey, to: TypeKey) {
    && b.Keys == a.Keys + sources + targets
    && forall v :: v in b ==> b[v] == if v in a then a[v] else if v in sources then from else to
  }

  /** Node `n` after joining output `output` of node `i` to input `input` of node `j`. */
  ghost predicate NodeJoined(a: Authored, b: Authored, n: nat, i: nat, j: nat, output: Port, input: Port, from: TypeKey, to: TypeKey) {
    && b.id == a.id && b.catalog == a.catalog
    && b.plugs == (if n == j && input.instancePlugs then a.plugs + [Plug(PlugId(|a.plugs| + 1), Strip(input.name))] else a.plugs)
    && BindingsJoined(a.bindings, b.bindings, if n == i then VariableOf(output) else {}, if n == j then VariableOf(input) else {}, from, to)
  }

  ghost predicate EdgeJoined(s: State, l: Link, j: nat, input: Port, e: Edge)
    requires j < |s.nodes|
  {
    && e.id == EdgeId(|s.edges| + 1) && e.path == l.path && e.mapped == l.mapped
    && e.fromNode == Strip(l.source.nodeId) && e.fromPort == Strip(l.source.port)
    && e.toNode == Strip(l.target.nodeId) && e.toPort == Strip(l.target.port)
    && e.toPlug == if input.instancePlugs then Some(PlugId(|s.nodes[j].plugs| + 1)) else None
  }

  /** `t` is `s` with the two ends bound, a plug where the input has them, and one more edge. */
  ghost predicate Joined(s: State, t: State, l: Link, i: nat, j: nat, output: Port, input: Port, types: seq<TypeKey>)
    requires i < |s.nodes| && j < |s.nodes| && |types| == |l.path| + 1
  {
    && t.identity == s.identity && t.conversions == s.conversions && |t.nodes| == |s.nodes|
    && (forall n :: 0 <= n < |s.nodes| ==> NodeJoined(s.nodes[n], t.nodes[n], n, i, j, output, input, types[0], types[|l.path|]))
    && |t.edges| == |s.edges| + 1 && t.edges[..|s.edges|] == s.edges && EdgeJoined(s, l, j, input, t.edges[|s.edges|])
  }

  // ---------------------------------------------------------------- the parts agree

  lemma {:induction false} FindsFirstNode(nodes: seq<Authored>, id: string, i: nat)
    ensures FindNode(nodes, id) == Some(i) <==> FirstNode(nodes, id, i)
  {
    if nodes != [] && nodes[0].id != id && i > 0 {
      FindsFirstNode(nodes[1..], id, i - 1);
      if FirstNode(nodes[1..], id, i - 1) {
        forall k | 0 <= k < i ensures nodes[k].id != id { if k > 0 { assert nodes[k] == nodes[1..][k - 1]; } }
      }
      if FirstNode(nodes, id, i) {
        forall k | 0 <= k < i - 1 ensures nodes[1..][k].id != id { assert nodes[1..][k] == nodes[k + 1]; }
      }
    }
  }

  lemma {:induction false} FindsFirstPort(ports: seq<Port>, name: string, port: Port)
    ensures FindPort(ports, name) == Some(port) <==> FirstPort(ports, name, port)
  {
    if ports != [] {
      if ports[0].name == name {
        if FirstPort(ports, name, port) {
          var n :| 0 <= n < |ports| && ports[n] == port && port.name == name && forall k :: 0 <= k < n ==> ports[k].name != name;
        }
      } else {
        FindsFirstPort(ports[1..], name, port);
        LaterPort(ports, name, port);
      }
    }
  }

  lemma {:induction false} LaterPort(ports: seq<Port>, name: string, port: Port)
    requires ports != [] && ports[0].name != name
    ensures FirstPort(ports, name, port) <==> FirstPort(ports[1..], name, port)
  {
    var rest := ports[1..];
    if FirstPort(ports, name, port) {
      var n :| 0 <= n < |ports| && ports[n] == port && port.name == name && forall k :: 0 <= k < n ==> ports[k].name != name;
      assert rest[n - 1] == port && forall k :: 0 <= k < n - 1 ==> rest[k] == ports[k + 1];
    }
    if FirstPort(rest, name, port) {
      var n :| 0 <= n < |rest| && rest[n] == port && port.name == name && forall k :: 0 <= k < n ==> rest[k].name != name;
      assert ports[n + 1] == port && forall k :: 1 <= k < n + 1 ==> ports[k] == rest[k - 1];
    }
  }

  lemma {:induction false} LocatesFirst(s: State, l: Link, i: nat, j: nat, output: Port, input: Port)
    ensures Locate(s, l) == Ok(Ends(i, j, output, input)) <==>
            && l.source.builder == s.identity && l.target.builder == s.identity
            && FirstNode(s.nodes, l.source.nodeId, i) && FirstNode(s.nodes, l.target.nodeId, j)
            && FirstPort(s.nodes[i].catalog.outputs, l.source.port, output)
            && FirstPort(s.nodes[j].catalog.inputs, l.target.port, input)
  {
    FindsFirstNode(s.nodes, l.source.nodeId, i);
    FindsFirstNode(s.nodes, l.target.nodeId, j);
    if i < |s.nodes| && j < |s.nodes| {
      FindsFirstPort(s.nodes[i].catalog.outputs, l.source.port, output);
      FindsFirstPort(s.nodes[j].catalog.inputs, l.target.port, input);
    }
  }

  lemma {:induction false} ResolvedIsType(node: Authored, port: Port, key: TypeKey)
    ensures Resolved(node, port) == Some(key) <==> HasType(node, port, key)
  {
  }

  lemma {:induction false} InferFlows(s: State, l: Link, i: nat, j: nat, output: Port, input: Port, types: seq<TypeKey>)
    requires i < |s.nodes| && j < |s.nodes| && TypePath(s.conversions, l.path, types)
    ensures TypesFlow(s, l, i, j, output, input, types) <==>
            Infer(s.conversions, Resolved(s.nodes[i], output), Resolved(s.nodes[j], input), l.path) == Ok(Types(types[0], types[|l.path|]))
  {
    var source, target := Resolved(s.nodes[i], output), Resolved(s.nodes[j], input);
    InferExact(s.conversions, source, target, l.path, types[0], types[|l.path|]);
    forall key
      ensures source == Some(key) <==> HasType(s.nodes[i], output, key)
      ensures target == Some(key) <==> HasType(s.nodes[j], input, key)
    {
      ResolvedIsType(s.nodes[i], output, key);
      ResolvedIsType(s.nodes[j], input, key);
    }
    if source.Some? { assert HasType(s.nodes[i], output, source.value); }
    if target.Some? { assert HasType(s.nodes[j], input, target.value); }
  }

  lemma {:induction false} FreeIsNotTaken(s: State, l: Link)
    ensures InputFree(s, l) <==> !InputTaken?(s.edges, l.target)
  {
    if InputTaken?(s.edges, l.target) {
      var k :| 0 <= k < |s.edges| && s.edges[k].toNode == l.target.nodeId && s.edges[k].toPort == l.target.port;
      assert s.edges[k] in s.edges;
    }
  }

  lemma {:induction false} JoinableAccepts(s: State, l: Link, i: nat, j: nat, output: Port, input: Port, types: seq<TypeKey>)
    requires Joinable(s, l, i, j, output, input, types)
    ensures Accepts(s, l, Ends(i, j, output, input), Types(types[0], types[|l.path|]))
  {
    LocatesFirst(s, l, i, j, output, input);
    InferFlows(s, l, i, j, output, input, types);
    FreeIsNotTaken(s, l);
  }

  lemma {:induction false} AcceptsJoinable(s: State, l: Link, ends: Ends, keys: Types) returns (types: seq<TypeKey>)
    requires Accepts(s, l, ends, keys)
    ensures Joinable(s, l, ends.i, ends.j, ends.output, ends.input, types)
  {
    LocatesFirst(s, l, ends.i, ends.j, ends.output, ends.input);
    var source, target := Resolved(s.nodes[ends.i], ends.output), Resolved(s.nodes[ends.j], ends.input);
    InferExact(s.conversions, source, target, l.path, keys.source, keys.target);
    types :| TypePath(s.conversions, l.path, types) && types[0] == keys.source && types[|l.path|] == keys.target;
    InferFlows(s, l, ends.i, ends.j, ends.output, ends.input, types);
    FreeIsNotTaken(s, l);
  }

  lemma {:induction false} AttachedJoins(nodes: seq<Authored>, ends: Ends, types: Types, n: nat)
    requires ends.i < |nodes| && ends.j < |nodes| && n < |nodes|
    ensures var after := Attached(nodes, ends, types, NewPlug(nodes[ends.j], ends.input));
            NodeJoined(nodes[n], after[n], n, ends.i, ends.j, ends.output, ends.input, types.source, types.target)
  {
  }

  lemma {:induction false} AfterJoins(s: State, l: Link, ends: Ends, keys: Types, types: seq<TypeKey>)
    requires ends.i < |s.nodes| && ends.j < |s.nodes| && |types| == |l.path| + 1 && keys == Types(types[0], types[|l.path|])
    ensures Joined(s, After(s, l, ends, keys), l, ends.i, ends.j, ends.output, ends.input, types)
  {
    forall n | 0 <= n < |s.nodes|
      ensures NodeJoined(s.nodes[n], After(s, l, ends, keys).nodes[n], n,
                         ends.i, ends.j, ends.output, ends.input, types[0], types[|l.path|])
    {
      AttachedJoins(s.nodes, ends, keys, n);
    }
  }

  /** Whatever makes a connection possible, the connection is made exactly so. */
  lemma {:induction false} JoinableConnects(s: State, l: Link, i: nat, j: nat, output: Port, input: Port, types: seq<TypeKey>)
    requires Joinable(s, l, i, j, output, input, types)
    ensures Connected(s, l).Ok? && Joined(s, Connected(s, l).value, l, i, j, output, input, types)
  {
    var ends, keys := Ends(i, j, output, input), Types(types[0], types[|l.path|]);
    JoinableAccepts(s, l, i, j, output, input, types);
    PartsConnect(s, l, ends, keys);
    AfterJoins(s, l, ends, keys, types);
  }

  /** A connection is accepted exactly when ends, shapes and a path of types allow it. */
  lemma {:induction false} ConnectedIff(s: State, l: Link)
    ensures Connected(s, l).Ok? <==> exists i, j, output, input, types :: Joinable(s, l, i, j, output, input, types)
  {
    if Connected(s, l).Ok? {
      var ends, keys := ConnectedParts(s, l);
      var types := AcceptsJoinable(s, l, ends, keys);
    }
    if i: nat, j: nat, output, input, types :| Joinable(s, l, i, j, output, input, types) {
      JoinableConnects(s, l, i, j, output, input, types);
    }
  }
}
