/** The state of a graph builder and what each authoring call does to it
    (libs/client/src/grafy_client/graph_builder.py). */
module GraphModel {
  import opened Text
  import opened Artifacts

  // ---------------------------------------------------------------- catalog

  datatype Shape = One | Many

  /** A catalog port declares exactly one artifact type or one type variable. */
  datatype PortType = Fixed(key: TypeKey) | Variable(name: string)

  datatype Port = Port(
    name: string, typ: PortType, shape: Shape, accepted: seq<Shape>,
    instancePlugs: bool, variadic: bool, required: bool)

  datatype CatalogNode = CatalogNode(
    operatorId: string, operatorVersion: int, inputs: seq<Port>, outputs: seq<Port>, runnable: bool)

  datatype ConversionRef = ConversionRef(id: string, version: int)

  datatype Conversion = Conversion(key: ConversionRef, source: TypeKey, target: TypeKey)

  // ---------------------------------------------------------------- authored state

  datatype Plug = Plug(id: string, port: string)

  datatype Authored = Authored(
    id: string, catalog: CatalogNode, bindings: map<string, TypeKey>, plugs: seq<Plug>)

  datatype Edge = Edge(
    id: string, fromNode: string, fromPort: string, toNode: string, toPort: string,
    toPlug: Option<string>, mapped: bool, path: seq<ConversionRef>)

  /** `identity` stands for the object each builder creates to recognise its own handles. */
  datatype State = State(identity: nat, conversions: seq<Conversion>, nodes: seq<Authored>, edges: seq<Edge>)

  datatype Handle = Handle(builder: nat, nodeId: string, port: string)

  datatype Link = Link(source: Handle, target: Handle, path: seq<ConversionRef>, mapped: bool)

  /** A node to add. `loweredId` is the operator id after Unicode lower-casing. */
  datatype Addition = Addition(catalog: CatalogNode, loweredId: string, bindings: map<string, TypeKey>)

  datatype BuilderError =
    | NotRunnable | UnknownBinding
    | ForeignHandle | UnknownNode | NoOutputPort | NoInputPort
    | MapNeedsMany | MapToPlug | ShapeRefused
    | TypeUnknown | UnknownConversion | ConversionMismatch | ConversionCycle | TypeMismatch
    | InputTaken | InvalidDocument
    | MissingBinding | MissingConnection | CycleFound

  // ---------------------------------------------------------------- identifiers

  /** The white space that saved-graph identifiers are stripped of. */
  predicate IsSpace(c: char) {
    var n := c as int;
    9 <= n <= 13 || n in {0x20, 0x85, 0xA0, 0x1680, 0x2028, 0x2029, 0x202F, 0x205F, 0x3000} || 0x2000 <= n <= 0x200A
  }

  function Strip(s: string): string { Trim(s, IsSpace) }

  const MAX_IDENTIFIER := 255
  const MAX_CONVERSION_HOPS := 8

  predicate FitsIdentifier(s: string) { 1 <= |Strip(s)| <= MAX_IDENTIFIER }

  predicate IsSlugChar(c: char) { 'a' <= c <= 'z' || '0' <= c <= '9' }

  /** Every maximal run of other characters becomes one dash. */
  function Dashed(s: string, inGap: bool): string {
    if s == [] then []
    else if IsSlugChar(s[0]) then [s[0]] + Dashed(s[1..], false)
    else (if inGap then [] else "-") + Dashed(s[1..], true)
  }

  function Slug(lowered: string): string {
    Trim(Dashed(lowered, false), c => c == '-')
  }

  function NodeId(number: nat, lowered: string): string {
    "node-" + Pad4(number) + "-" + Slug(lowered)
  }

  function EdgeId(number: nat): string { "edge-" + Pad4(number) }

  function PlugId(number: nat): string { "plug-" + Pad4(number) }

  // ---------------------------------------------------------------- lookups

  function FindNode(nodes: seq<Authored>, id: string): (r: Option<nat>)
    ensures r.Some? ==> r.value < |nodes| && nodes[r.value].id == id
    ensures r.None? ==> forall i :: 0 <= i < |nodes| ==> nodes[i].id != id
  {
    if nodes == [] then None
    else if nodes[0].id == id then Some(0)
    else
      var rest := FindNode(nodes[1..], id);
      assert forall i :: 1 <= i < |nodes| ==> nodes[i] == nodes[1..][i - 1];
      if rest.None? then None else Some(rest.value + 1)
  }

  function FindPort(ports: seq<Port>, name: string): (r: Option<Port>)
    ensures r.Some? ==> r.value in ports && r.value.name == name
    ensures r.None? <==> forall p :: p in ports ==> p.name != name
  {
    if ports == [] then None
    else if ports[0].name == name then Some(ports[0])
    else
      assert forall p :: p in ports <==> p == ports[0] || p in ports[1..];
      FindPort(ports[1..], name)
  }

  function Matching(conversions: seq<Conversion>, key: ConversionRef): seq<Conversion> {
    if conversions == [] then []
    else (if conversions[0].key == key then [conversions[0]] else []) + Matching(conversions[1..], key)
  }

  function Lookup(conversions: seq<Conversion>, key: ConversionRef): Option<Conversion> {
    var found := Matching(conversions, key);
    if |found| == 1 then Some(found[0]) else None
  }

  function LookupAll(conversions: seq<Conversion>, path: seq<ConversionRef>): (r: Option<seq<Conversion>>)
    ensures r.Some? <==> forall k :: 0 <= k < |path| ==> Lookup(conversions, path[k]).Some?
    ensures r.Some? ==> |r.value| == |path|
    ensures r.Some? ==> forall k :: 0 <= k < |path| ==> Lookup(conversions, path[k]) == Some(r.value[k])
  {
    if path == [] then Some([])
    else
      var last := |path| - 1;
      var front := LookupAll(conversions, path[..last]);
      var here := Lookup(conversions, path[last]);
      assert forall k :: 0 <= k < last ==> path[..last][k] == path[k];
      if front.Some? && here.Some? then Some(front.value + [here.value]) else None
  }

  function Resolved(node: Authored, port: Port): Option<TypeKey> {
    match port.typ
    case Fixed(key) => Some(key)
    case Variable(v) => if v in node.bindings then Some(node.bindings[v]) else None
  }

  function VariablesOf(ports: seq<Port>): set<string> {
    set p | p in ports && p.typ.Variable? :: p.typ.name
  }

  function Variables(catalog: CatalogNode): set<string> {
    VariablesOf(catalog.inputs) + VariablesOf(catalog.outputs)
  }

  // ---------------------------------------------------------------- adding a node

  function Added(s: State, a: Addition): Result<State, BuilderError> {
    if !a.catalog.runnable then Err(NotRunnable)
    else if !(a.bindings.Keys <= Variables(a.catalog)) then Err(UnknownBinding)
    else Ok(s.(nodes := s.nodes + [Authored(NodeId(|s.nodes| + 1, a.loweredId), a.catalog, a.bindings, [])]))
  }

  // ---------------------------------------------------------------- connecting two ports

  datatype Ends = Ends(i: nat, j: nat, output: Port, input: Port)

  function Locate(s: State, l: Link): (r: Result<Ends, BuilderError>)
    ensures r.Ok? ==> r.value.i < |s.nodes| && r.value.j < |s.nodes|
    ensures r.Ok? ==> s.nodes[r.value.i].id == l.source.nodeId && s.nodes[r.value.j].id == l.target.nodeId
  {
    if l.source.builder != s.identity || l.target.builder != s.identity then Err(ForeignHandle)
    else
      var i := FindNode(s.nodes, l.source.nodeId);
      var j := FindNode(s.nodes, l.target.nodeId);
      if i.None? || j.None? then Err(UnknownNode)
      else
        var output := FindPort(s.nodes[i.value].catalog.outputs, l.source.port);
        if output.None? then Err(NoOutputPort)
        else
          var input := FindPort(s.nodes[j.value].catalog.inputs, l.target.port);
          if input.None? then Err(NoInputPort)
          else Ok(Ends(i.value, j.value, output.value, input.value))
  }

  /** The shape that arrives at the input, or the refusal. */
  function FitShape(output: Port, input: Port, mapped: bool): Option<BuilderError> {
    if mapped && output.shape != Many then Some(MapNeedsMany)
    else if mapped && input.instancePlugs then Some(MapToPlug)
    else if (if mapped then One else output.shape) !in input.accepted then Some(ShapeRefused)
    else None
  }

  /** Follows a conversion chain from `current`, never revisiting a type. */
  function Follow(chain: seq<Conversion>, current: TypeKey, visited: set<TypeKey>): Result<TypeKey, BuilderError> {
    if chain == [] then Ok(current)
    else if chain[0].source != current then Err(ConversionMismatch)
    else if chain[0].target in visited then Err(ConversionCycle)
    else Follow(chain[1..], chain[0].target, visited + {chain[0].target})
  }

  datatype Types = Types(source: TypeKey, target: TypeKey)

  function Infer(conversions: seq<Conversion>, source: Option<TypeKey>, target: Option<TypeKey>, path: seq<ConversionRef>)
    : Result<Types, BuilderError>
  {
    if source.None? && target.None? then Err(TypeUnknown)
    else
      var chain := LookupAll(conversions, path);
      if chain.None? then Err(UnknownConversion)
      else
        var start := if source.Some? then source.value
                     else if chain.value != [] then chain.value[0].source
                     else target.value;
        var reached := Follow(chain.value, start, {start});
        if reached.Err? then Err(reached.error)
        else if target.Some? && reached.value != target.value then Err(TypeMismatch)
        else Ok(Types(start, reached.value))
  }

  predicate InputTaken?(edges: seq<Edge>, target: Handle) {
    exists k :: 0 <= k < |edges| && edges[k].toNode == target.nodeId && edges[k].toPort == target.port
  }

  /** The plug a connection to `input` creates on its target node, if it creates one. */
  function NewPlug(node: Authored, input: Port): Option<Plug> {
    if input.instancePlugs then Some(Plug(PlugId(|node.plugs| + 1), Strip(input.name))) else None
  }

  function NewEdge(number: nat, l: Link, plug: Option<Plug>): Edge {
    Edge(EdgeId(number), Strip(l.source.nodeId), Strip(l.source.port), Strip(l.target.nodeId), Strip(l.target.port),
         if plug.Some? then Some(plug.value.id) else None, l.mapped, l.path)
  }

  predicate EdgeFits(number: nat, l: Link, plug: Option<Plug>) {
    && FitsIdentifier(EdgeId(number))
    && FitsIdentifier(l.source.nodeId) && FitsIdentifier(l.source.port)
    && FitsIdentifier(l.target.nodeId) && FitsIdentifier(l.target.port)
    && (plug.Some? ==> FitsIdentifier(plug.value.id))
    && |l.path| <= MAX_CONVERSION_HOPS
  }

  function Bound(node: Authored, port: Port, key: TypeKey): Authored {
    if port.typ.Variable? && port.typ.name !in node.bindings
    then node.(bindings := node.bindings[port.typ.name := key])
    else node
  }

  function Plugged(node: Authored, plug: Option<Plug>): Authored {
    if plug.Some? then node.(plugs := node.plugs + [plug.value]) else node
  }

  function Attached(nodes: seq<Authored>, ends: Ends, types: Types, plug: Option<Plug>): (r: seq<Authored>)
    requires ends.i < |nodes| && ends.j < |nodes|
    ensures |r| == |nodes|
  {
    var sourceBound := nodes[ends.i := Bound(nodes[ends.i], ends.output, types.source)];
    sourceBound[ends.j := Plugged(Bound(sourceBound[ends.j], ends.input, types.target), plug)]
  }

  function Connected(s: State, l: Link): Result<State, BuilderError> {
    var located := Locate(s, l);
    if located.Err? then Err(located.error)
    else
      var ends := located.value;
      var misfit := FitShape(ends.output, ends.input, l.mapped);
      if misfit.Some? then Err(misfit.value)
      else
        var types := Infer(s.conversions, Resolved(s.nodes[ends.i], ends.output), Resolved(s.nodes[ends.j], ends.input), l.path);
        if types.Err? then Err(types.error)
        else if !ends.input.variadic && InputTaken?(s.edges, l.target) then Err(InputTaken)
        else
          var plug := NewPlug(s.nodes[ends.j], ends.input);
          if !EdgeFits(|s.edges| + 1, l, plug) then Err(InvalidDocument)
          else Ok(s.(nodes := Attached(s.nodes, ends, types.value, plug),
                     edges := s.edges + [NewEdge(|s.edges| + 1, l, plug)]))
  }

  // ---------------------------------------------------------------- runs

  datatype Call = Add(addition: Addition) | Connect(link: Link)

  /** A failed call changes nothing. */
  function Step(s: State, c: Call): State {
    var r := match c case Add(a) => Added(s, a) case Connect(l) => Connected(s, l);
    if r.Ok? then r.value else s
  }

  function Run(s: State, calls: seq<Call>): State
    decreases |calls|
  {
    if calls == [] then s else Run(Step(s, calls[0]), calls[1..])
  }

  function Initial(identity: nat, conversions: seq<Conversion>): State {
    State(identity, conversions, [], [])
  }
}
