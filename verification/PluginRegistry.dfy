/** Installing plugins and freezing the registry
    (libs/core/src/grafy_core/plugins.py:645-846). */
module Plugins {
  import opened Text
  import opened Artifacts
  import opened Json
  import opened Projections
  import opened ProjectionLeaves
  import opened ProjectionTwice

  /** `rest` stands for the fields of a type that freezing only compares. */
  datatype TypeSpec = TypeSpec(key: TypeKey, schema: Fields, projections: seq<Projection>, materialized: Option<string>, rest: string)

  datatype PortType = Concrete(key: TypeKey) | Variable(name: string)

  type NodeKey = (string, int)

  datatype Node = Node(key: NodeKey, slug: string, ports: seq<PortType>)

  datatype Plugin = Plugin(slug: string, nodes: seq<Node>, types: seq<TypeSpec>, dependencies: seq<TypeSpec>)

  datatype State = State(plugins: seq<Plugin>, nodes: map<NodeKey, Node>, types: map<TypeKey, TypeSpec>, frozen: bool)

  // ---------------------------------------------------------------- what freezing demands

  function Owned(plugins: seq<Plugin>): seq<TypeSpec> {
    if plugins == [] then [] else plugins[0].types + Owned(plugins[1..])
  }

  function Dependencies(plugins: seq<Plugin>): seq<TypeSpec> {
    if plugins == [] then [] else plugins[0].dependencies + Dependencies(plugins[1..])
  }

  ghost predicate DistinctKeys(specs: seq<TypeSpec>) {
    forall i, j :: 0 <= i < j < |specs| ==> specs[i].key != specs[j].key
  }

  /** Everybody who names an artifact type means the same contract. */
  ghost predicate Consistent(specs: seq<TypeSpec>) {
    forall s, t :: s in specs && t in specs && s.key == t.key ==> s == t
  }

  /** `contracts` holds exactly the given types, by key. */
  ghost predicate Collects(contracts: map<TypeKey, TypeSpec>, specs: seq<TypeSpec>) {
    && (forall t :: t in specs ==> t.key in contracts && contracts[t.key] == t)
    && (forall k :: k in contracts ==> contracts[k] in specs && contracts[k].key == k)
  }

  function KeysOf(specs: seq<TypeSpec>): set<TypeKey> { set t | t in specs :: t.key }

  function DeclaredKeys(plugin: Plugin): set<TypeKey> { KeysOf(plugin.types + plugin.dependencies) }

  function Find(plugins: seq<Plugin>, slug: string): (r: Option<Plugin>)
    ensures r.Some? ==> r.value in plugins && r.value.slug == slug
    ensures r.None? <==> forall p :: p in plugins ==> p.slug != slug
  {
    if plugins == [] then None else if plugins[0].slug == slug then Some(plugins[0]) else Find(plugins[1..], slug)
  }

  predicate PortDeclared(plugins: seq<Plugin>, slug: string, port: PortType) {
    port.Concrete? ==> Find(plugins, slug).Some? && port.key in DeclaredKeys(Find(plugins, slug).value)
  }

  ghost predicate PortsDeclared(plugins: seq<Plugin>, node: Node) {
    forall port :: port in node.ports ==> PortDeclared(plugins, node.slug, port)
  }

  ghost predicate ProjectionsDeclared(t: TypeSpec, keys: set<TypeKey>) {
    && DistinctPaths(t.projections)
    && (forall p :: p in t.projections ==> p.path != [] && p.target in keys)
  }

  ghost predicate AllProjectionsDeclared(plugin: Plugin) {
    forall t :: t in plugin.types + plugin.dependencies ==> ProjectionsDeclared(t, DeclaredKeys(plugin))
  }

  /** No JSON type has two canonical artifact types. */
  ghost predicate OneTargetEach(contracts: map<TypeKey, TypeSpec>) {
    forall j, k ::
      (j in contracts && k in contracts && contracts[j].materialized.Some? && contracts[j].materialized == contracts[k].materialized)
      ==> j == k
  }

  /** `scalars` maps each stored JSON type to the artifact type that stores it. */
  ghost predicate Canonical(contracts: map<TypeKey, TypeSpec>, scalars: map<string, TypeKey>) {
    && (forall k :: k in contracts && contracts[k].materialized.Some? ==>
          contracts[k].materialized.value in scalars && scalars[contracts[k].materialized.value] == k)
    && (forall name :: name in scalars ==> scalars[name] in contracts && contracts[scalars[name]].materialized == Some(name))
  }

  function ContextOf(t: TypeSpec, contracts: map<TypeKey, TypeSpec>, scalars: map<string, TypeKey>, humanize: string -> string): Context {
    Context(t.schema, t.projections, scalars, map k | k in contracts :: contracts[k].materialized, t.materialized.None?, humanize)
  }

  ghost predicate ExpandsTo(before: map<TypeKey, TypeSpec>, after: map<TypeKey, TypeSpec>,
                            contracts: map<TypeKey, TypeSpec>, scalars: map<string, TypeKey>, humanize: string -> string) {
    && after.Keys == before.Keys
    && forall k :: k in before ==>
        var ps := Expanded(ContextOf(before[k], contracts, scalars, humanize));
        ps.Ok? && after[k] == before[k].(projections := ps.value)
  }

  /** The checks that read only what was installed. */
  ghost predicate Checked(s: State, contracts: map<TypeKey, TypeSpec>, scalars: map<string, TypeKey>) {
    && Collects(contracts, Owned(s.plugins) + Dependencies(s.plugins))
    && (forall k :: k in s.nodes ==> PortsDeclared(s.plugins, s.nodes[k]))
    && (forall p :: p in s.plugins ==> AllProjectionsDeclared(p))
    && Canonical(contracts, scalars)
  }

  ghost predicate FreezesBy(s: State, t: State, contracts: map<TypeKey, TypeSpec>, scalars: map<string, TypeKey>,
                            humanize: string -> string) {
    && Checked(s, contracts, scalars)
    && t == s.(types := t.types, frozen := true)
    && ExpandsTo(s.types, t.types, contracts, scalars, humanize)
  }

  /** Freezing `s` succeeds and gives `t`. */
  ghost predicate Freezes(s: State, t: State, humanize: string -> string) {
    exists contracts, scalars :: FreezesBy(s, t, contracts, scalars, humanize)
  }

  // ---------------------------------------------------------------- the tables are unique

  lemma {:induction false} OneCollection(a: map<TypeKey, TypeSpec>, b: map<TypeKey, TypeSpec>, specs: seq<TypeSpec>)
    requires Collects(a, specs) && Collects(b, specs)
    ensures a == b
  {
    assert a.Keys == b.Keys;
  }

  lemma {:induction false} OneCanon(contracts: map<TypeKey, TypeSpec>, a: map<string, TypeKey>, b: map<string, TypeKey>)
    requires Canonical(contracts, a) && Canonical(contracts, b)
    ensures a == b
  {
    assert a.Keys == b.Keys;
  }

  lemma {:induction false} OneExpansion(before: map<TypeKey, TypeSpec>, a: map<TypeKey, TypeSpec>, b: map<TypeKey, TypeSpec>,
                                        contracts: map<TypeKey, TypeSpec>, scalars: map<string, TypeKey>, humanize: string -> string)
    requires ExpandsTo(before, a, contracts, scalars, humanize) && ExpandsTo(before, b, contracts, scalars, humanize)
    ensures a == b
  {
    forall k | k in before ensures a[k] == b[k] {}
  }

  /** Freezing has one outcome. */
  lemma {:induction false} FreezesOneWay(s: State, t: State, u: State, humanize: string -> string)
    requires Freezes(s, t, humanize) && Freezes(s, u, humanize)
    ensures t == u
  {
    var c, d :| FreezesBy(s, t, c, d, humanize);
    var e, f :| FreezesBy(s, u, e, f, humanize);
    OneCollection(c, e, Owned(s.plugins) + Dependencies(s.plugins));
    OneCanon(c, d, f);
    OneExpansion(s.types, t.types, u.types, c, d, humanize);
  }

  // ---------------------------------------------------------------- freezing twice

  /** Before freezing, the registered types are those the plugins brought. */
  ghost predicate AsInstalled(s: State) {
    forall k :: k in s.types ==> exists p :: p in s.plugins && s.types[k] in p.types
  }

  lemma {:induction false} StoresScalars(t: TypeSpec, contracts: map<TypeKey, TypeSpec>, scalars: map<string, TypeKey>,
                                         humanize: string -> string)
    requires Canonical(contracts, scalars)
    ensures ScalarsStore(ContextOf(t, contracts, scalars, humanize))
  {
  }

  lemma {:induction false} TypeExpandsTwice(t: TypeSpec, contracts: map<TypeKey, TypeSpec>,
                                            scalars: map<string, TypeKey>, humanize: string -> string)
    requires Canonical(contracts, scalars) && DistinctPaths(t.projections)
    requires Expanded(ContextOf(t, contracts, scalars, humanize)).Ok?
    ensures var ps := Expanded(ContextOf(t, contracts, scalars, humanize));
            Expanded(ContextOf(t.(projections := ps.value), contracts, scalars, humanize)) == ps
  {
    var ctx := ContextOf(t, contracts, scalars, humanize);
    StoresScalars(t, contracts, scalars, humanize);
    ExpandedTwice(ctx);
    assert ContextOf(t.(projections := Expanded(ctx).value), contracts, scalars, humanize) == ctx.(declared := Expanded(ctx).value);
  }

  lemma {:induction false} ExpandsTwice(before: map<TypeKey, TypeSpec>, after: map<TypeKey, TypeSpec>,
                                        contracts: map<TypeKey, TypeSpec>, scalars: map<string, TypeKey>, humanize: string -> string)
    requires ExpandsTo(before, after, contracts, scalars, humanize) && Canonical(contracts, scalars)
    requires forall k :: k in before ==> DistinctPaths(before[k].projections)
    ensures ExpandsTo(after, after, contracts, scalars, humanize)
  {
    forall k | k in after
      ensures var ps := Expanded(ContextOf(after[k], contracts, scalars, humanize));
          ps.Ok? && after[k] == after[k].(projections := ps.value)
    {
      TypeExpandsTwice(before[k], contracts, scalars, humanize);
    }
  }

  /** A frozen registry freezes again, to itself. */
  lemma {:induction false} FreezeTwice(s: State, t: State, humanize: string -> string)
    requires AsInstalled(s) && Freezes(s, t, humanize)
    ensures Freezes(t, t, humanize)
  {
    var contracts, scalars :| FreezesBy(s, t, contracts, scalars, humanize);
    forall k | k in s.types ensures DistinctPaths(s.types[k].projections) {
      var p :| p in s.plugins && s.types[k] in p.types;
      assert AllProjectionsDeclared(p);
      assert s.types[k] in p.types + p.dependencies;
      assert ProjectionsDeclared(s.types[k], DeclaredKeys(p));
    }
    ExpandsTwice(s.types, t.types, contracts, scalars, humanize);
    assert FreezesBy(t, t, contracts, scalars, humanize);
  }

  // ---------------------------------------------------------------- installing

  datatype InstallError = IsFrozen | SlugTaken | NodeTaken | TypeTaken

  function WithNodes(nodes: map<NodeKey, Node>, more: seq<Node>): map<NodeKey, Node> {
    if more == [] then nodes else WithNodes(nodes, more[..|more| - 1])[more[|more| - 1].key := more[|more| - 1]]
  }

  function WithTypes(types: map<TypeKey, TypeSpec>, more: seq<TypeSpec>): map<TypeKey, TypeSpec> {
    if more == [] then types else WithTypes(types, more[..|more| - 1])[more[|more| - 1].key := more[|more| - 1]]
  }

  function Installed(s: State, plugin: Plugin): Result<State, InstallError> {
    if s.frozen then Err(IsFrozen)
    else if Find(s.plugins, plugin.slug).Some? then Err(SlugTaken)
    else if exists n :: n in plugin.nodes && n.key in s.nodes then Err(NodeTaken)
    else if exists t :: t in plugin.types && t.key in s.types then Err(TypeTaken)
    else Ok(State(s.plugins + [plugin], WithNodes(s.nodes, plugin.nodes), WithTypes(s.types, plugin.types), false))
  }

  /** A plugin rejects a second type under one key while it is being declared. */
  ghost predicate WellDeclared(plugin: Plugin) { DistinctKeys(plugin.types) }

  /** The registered types are those of the installed plugins. */
  ghost predicate Registered(s: State) {
    && DistinctKeys(Owned(s.plugins))
    && s.types.Keys == KeysOf(Owned(s.plugins))
    && (!s.frozen ==> AsInstalled(s))
  }

  /** What every sequence of installs and freezes keeps. */
  ghost predicate Sound(s: State, humanize: string -> string) {
    Registered(s) && (s.frozen ==> Freezes(s, s, humanize))
  }

  lemma {:induction false} OwnedAppends(plugins: seq<Plugin>, plugin: Plugin)
    ensures Owned(plugins + [plugin]) == Owned(plugins) + plugin.types
  {
    if plugins == [] {
      assert plugins + [plugin] == [plugin] && [plugin][1..] == [];
    } else {
      var rest := plugins[1..];
      assert (plugins + [plugin])[1..] == rest + [plugin];
      OwnedAppends(rest, plugin);
      assert plugins[0].types + (Owned(rest) + plugin.types) == plugins[0].types + Owned(rest) + plugin.types;
    }
  }

  lemma {:induction false} WithTypesHolds(types: map<TypeKey, TypeSpec>, more: seq<TypeSpec>)
    ensures WithTypes(types, more).Keys == types.Keys + KeysOf(more)
    ensures forall k :: k in WithTypes(types, more) ==>
              WithTypes(types, more)[k] in more || (k in types && WithTypes(types, more)[k] == types[k])
  {
    if more != [] {
      var last := more[|more| - 1];
      assert more == more[..|more| - 1] + [last];
      WithTypesHolds(types, more[..|more| - 1]);
      assert KeysOf(more) == KeysOf(more[..|more| - 1]) + {last.key};
    }
  }

  lemma {:induction false} KeysStayDistinct(owned: seq<TypeSpec>, more: seq<TypeSpec>)
    requires DistinctKeys(owned) && DistinctKeys(more) && forall t :: t in more ==> t.key !in KeysOf(owned)
    ensures DistinctKeys(owned + more)
  {
    forall i, j | 0 <= i < j < |owned + more| ensures (owned + more)[i].key != (owned + more)[j].key {
      if i < |owned| <= j {
        assert owned[i] in owned && more[j - |owned|] in more;
      }
    }
  }

  lemma {:induction false} KeysOfBoth(owned: seq<TypeSpec>, more: seq<TypeSpec>)
    ensures KeysOf(owned + more) == KeysOf(owned) + KeysOf(more)
  {
  }

  lemma {:induction false} StaysAsInstalled(s: State, plugin: Plugin, t: State)
    requires AsInstalled(s) && t.plugins == s.plugins + [plugin] && t.types == WithTypes(s.types, plugin.types)
    ensures AsInstalled(t)
  {
    WithTypesHolds(s.types, plugin.types);
    forall k | k in t.types ensures exists p :: p in t.plugins && t.types[k] in p.types {
      if t.types[k] in plugin.types {
        assert plugin in t.plugins;
      } else {
        var p :| p in s.plugins && s.types[k] in p.types;
        assert p in t.plugins;
      }
    }
  }

  lemma {:induction false} MoreRegistered(s: State, plugin: Plugin, t: State)
    requires Registered(s) && !s.frozen && WellDeclared(plugin) && forall u :: u in plugin.types ==> u.key !in s.types
    requires t.plugins == s.plugins + [plugin] && t.types == WithTypes(s.types, plugin.types)
    ensures Registered(t)
  {
    OwnedAppends(s.plugins, plugin);
    WithTypesHolds(s.types, plugin.types);
    KeysStayDistinct(Owned(s.plugins), plugin.types);
    KeysOfBoth(Owned(s.plugins), plugin.types);
    StaysAsInstalled(s, plugin, t);
  }

  lemma {:induction false} InstalledIsSound(s: State, plugin: Plugin, humanize: string -> string)
    requires Sound(s, humanize) && WellDeclared(plugin) && Installed(s, plugin).Ok?
    ensures Sound(Installed(s, plugin).value, humanize)
  {
    MoreRegistered(s, plugin, Installed(s, plugin).value);
  }

  lemma {:induction false} FrozenIsSound(s: State, t: State, humanize: string -> string)
    requires Sound(s, humanize) && Freezes(s, t, humanize)
    ensures Sound(t, humanize)
    ensures s.frozen ==> t == s
  {
    if s.frozen {
      FreezesOneWay(s, s, t, humanize);
    } else {
      FreezeTwice(s, t, humanize);
      var contracts, scalars :| FreezesBy(s, t, contracts, scalars, humanize);
    }
  }

  // ---------------------------------------------------------------- every sequence of calls

  datatype Call = Install(plugin: Plugin) | Freeze

  /** `t` is what a call leaves: a refused call leaves the registry as it was. */
  ghost predicate Step(s: State, call: Call, t: State, humanize: string -> string) {
    match call
    case Install(plugin) => t == if Installed(s, plugin).Ok? then Installed(s, plugin).value else s
    case Freeze => Freezes(s, t, humanize) || (t == s && forall u :: !Freezes(s, u, humanize))
  }

  ghost predicate StepAt(states: seq<State>, calls: seq<Call>, humanize: string -> string, i: nat)
    requires i < |calls| && |states| == |calls| + 1
  {
    && (calls[i].Install? ==> WellDeclared(calls[i].plugin))
    && Step(states[i], calls[i], states[i + 1], humanize)
  }

  ghost predicate Runs(states: seq<State>, calls: seq<Call>, humanize: string -> string) {
    && |states| == |calls| + 1
    && states[0] == State([], map[], map[], false)
    && forall i {:trigger StepAt(states, calls, humanize, i)} :: 0 <= i < |calls| ==> StepAt(states, calls, humanize, i)
  }

  lemma {:induction false} StepIsSound(s: State, call: Call, t: State, humanize: string -> string)
    requires Sound(s, humanize) && Step(s, call, t, humanize) && (call.Install? ==> WellDeclared(call.plugin))
    ensures Sound(t, humanize) && (s.frozen ==> t == s)
  {
    match call
    case Install(plugin) => if Installed(s, plugin).Ok? { InstalledIsSound(s, plugin, humanize); }
    case Freeze => if Freezes(s, t, humanize) { FrozenIsSound(s, t, humanize); }
  }

  lemma {:induction false} StepAtIsSound(states: seq<State>, calls: seq<Call>, humanize: string -> string, i: nat)
    requires Runs(states, calls, humanize) && i < |calls| && Sound(states[i], humanize)
    ensures Sound(states[i + 1], humanize) && (states[i].frozen ==> states[i + 1] == states[i])
  {
    assert StepAt(states, calls, humanize, i);
    StepIsSound(states[i], calls[i], states[i + 1], humanize);
  }

  lemma {:induction false} RunIsSound(states: seq<State>, calls: seq<Call>, humanize: string -> string, n: nat)
    requires Runs(states, calls, humanize) && n < |states|
    ensures Sound(states[n], humanize)
  {
    if n > 0 {
      RunIsSound(states, calls, humanize, n - 1);
      StepAtIsSound(states, calls, humanize, n - 1);
    }
  }

  /** Whatever is called after the first successful freeze, nothing changes any more. */
  lemma {:induction false} FrozenForever(states: seq<State>, calls: seq<Call>, humanize: string -> string, m: nat, n: nat)
    requires Runs(states, calls, humanize) && m <= n < |states| && states[m].frozen
    ensures states[n] == states[m]
    decreases n
  {
    if m < n {
      FrozenForever(states, calls, humanize, m, n - 1);
      RunIsSound(states, calls, humanize, n - 1);
      StepAtIsSound(states, calls, humanize, n - 1);
    }
  }

  // ---------------------------------------------------------------- the loops

  lemma {:induction false} CollectsMore(contracts: map<TypeKey, TypeSpec>, specs: seq<TypeSpec>, t: TypeSpec)
    requires Collects(contracts, specs) && (t.key in contracts ==> contracts[t.key] == t)
    ensures Collects(contracts[t.key := t], specs + [t])
  {
  }

  /** Merges dependencies into the owned contracts. */
  method CollectContracts(owned: seq<TypeSpec>, dependencies: seq<TypeSpec>) returns (r: Option<map<TypeKey, TypeSpec>>)
    requires DistinctKeys(owned)
    ensures r.Some? <==> Consistent(owned + dependencies)
    ensures r.Some? ==> Collects(r.value, owned + dependencies)
  {
    var contracts: map<TypeKey, TypeSpec> := map[];
    for i := 0 to |owned|
      invariant Collects(contracts, owned[..i])
    {
      assert owned[..i + 1] == owned[..i] + [owned[i]];
      assert owned[i].key !in contracts;
      CollectsMore(contracts, owned[..i], owned[i]);
      contracts := contracts[owned[i].key := owned[i]];
    }
    assert owned + dependencies[..0] == owned[..|owned|];
    for i := 0 to |dependencies|
      invariant Collects(contracts, owned + dependencies[..i])
    {
      var d := dependencies[i];
      assert owned + dependencies[..i + 1] == (owned + dependencies[..i]) + [d];
      if d.key in contracts && contracts[d.key] != d {
        assert contracts[d.key] in owned + dependencies && d in owned + dependencies;
        return None;
      }
      CollectsMore(contracts, owned + dependencies[..i], d);
      contracts := contracts[d.key := d];
    }
    assert dependencies[..|dependencies|] == dependencies;
    return Some(contracts);
  }

  method CheckPorts(plugins: seq<Plugin>, node: Node) returns (ok: bool)
    ensures ok <==> PortsDeclared(plugins, node)
  {
    for i := 0 to |node.ports|
      invariant forall j :: 0 <= j < i ==> PortDeclared(plugins, node.slug, node.ports[j])
    {
      if !PortDeclared(plugins, node.slug, node.ports[i]) {
        return false;
      }
    }
    return true;
  }

  method CheckProjections(t: TypeSpec, keys: set<TypeKey>) returns (ok: bool)
    ensures ok <==> ProjectionsDeclared(t, keys)
  {
    var paths: set<Path> := {};
    for i := 0 to |t.projections|
      invariant DistinctPaths(t.projections[..i])
      invariant forall path :: path in paths <==> exists j :: 0 <= j < i && t.projections[j].path == path
      invariant forall j :: 0 <= j < i ==> t.projections[j].path != [] && t.projections[j].target in keys
    {
      var p := t.projections[i];
      if p.path == [] {
        return false;
      }
      if p.path in paths {
        return false;
      }
      paths := paths + {p.path};
      if p.target !in keys {
        return false;
      }
    }
    assert t.projections[..|t.projections|] == t.projections;
    return true;
  }

  method CheckPlugin(plugin: Plugin) returns (ok: bool)
    ensures ok <==> AllProjectionsDeclared(plugin)
  {
    var specs := plugin.types + plugin.dependencies;
    for i := 0 to |specs|
      invariant forall j :: 0 <= j < i ==> ProjectionsDeclared(specs[j], DeclaredKeys(plugin))
    {
      ok := CheckProjections(specs[i], DeclaredKeys(plugin));
      if !ok {
        return;
      }
    }
    return true;
  }

  method CheckPlugins(plugins: seq<Plugin>) returns (ok: bool)
    ensures ok <==> forall p :: p in plugins ==> AllProjectionsDeclared(p)
  {
    for i := 0 to |plugins|
      invariant forall j :: 0 <= j < i ==> AllProjectionsDeclared(plugins[j])
    {
      ok := CheckPlugin(plugins[i]);
      if !ok {
        return;
      }
    }
    return true;
  }

  method CheckNodes(plugins: seq<Plugin>, nodes: map<NodeKey, Node>) returns (ok: bool)
    ensures ok <==> forall k :: k in nodes ==> PortsDeclared(plugins, nodes[k])
  {
    var left := nodes.Keys;
    while left != {}
      invariant left <= nodes.Keys
      invariant forall k :: k in nodes && k !in left ==> PortsDeclared(plugins, nodes[k])
    {
      var k :| k in left;
      ok := CheckPorts(plugins, nodes[k]);
      if !ok {
        return;
      }
      left := left - {k};
    }
    return true;
  }

  method CollectScalars(contracts: map<TypeKey, TypeSpec>) returns (r: Option<map<string, TypeKey>>)
    ensures r.Some? <==> OneTargetEach(contracts)
    ensures r.Some? ==> Canonical(contracts, r.value)
  {
    var scalars: map<string, TypeKey> := map[];
    var left := contracts.Keys;
    while left != {}
      invariant left <= contracts.Keys
      invariant forall k :: k in contracts && k !in left && contracts[k].materialized.Some?
                  ==> contracts[k].materialized.value in scalars && scalars[contracts[k].materialized.value] == k
      invariant forall name :: name in scalars ==>
                  scalars[name] in contracts && scalars[name] !in left && contracts[scalars[name]].materialized == Some(name)
    {
      var k :| k in left;
      left := left - {k};
      var name := contracts[k].materialized;
      if name.Some? {
        if name.value in scalars {
          return None;
        }
        scalars := scalars[name.value := k];
      }
    }
    return Some(scalars);
  }

  method ExpandTypes(types: map<TypeKey, TypeSpec>, contracts: map<TypeKey, TypeSpec>, scalars: map<string, TypeKey>,
                     humanize: string -> string)
    returns (r: Option<map<TypeKey, TypeSpec>>)
    ensures r.Some? <==> forall k :: k in types ==> Expanded(ContextOf(types[k], contracts, scalars, humanize)).Ok?
    ensures r.Some? ==> ExpandsTo(types, r.value, contracts, scalars, humanize)
  {
    var expanded: map<TypeKey, TypeSpec> := map[];
    var left := types.Keys;
    while left != {}
      invariant left <= types.Keys && expanded.Keys == types.Keys - left
      invariant forall k :: k in expanded ==>
                  var ps := Expanded(ContextOf(types[k], contracts, scalars, humanize));
                  ps.Ok? && expanded[k] == types[k].(projections := ps.value)
    {
      var k :| k in left;
      left := left - {k};
      var ps := ExpandFieldProjections(ContextOf(types[k], contracts, scalars, humanize));
      if ps.Err? {
        return None;
      }
      expanded := expanded[k := types[k].(projections := ps.value)];
    }
    return Some(expanded);
  }

  method AddNodes(nodes: map<NodeKey, Node>, more: seq<Node>) returns (r: map<NodeKey, Node>)
    ensures r == WithNodes(nodes, more)
  {
    r := nodes;
    for i := 0 to |more|
      invariant r == WithNodes(nodes, more[..i])
    {
      assert more[..i + 1][..i] == more[..i];
      r := r[more[i].key := more[i]];
    }
    assert more[..|more|] == more;
  }

  method AddTypes(types: map<TypeKey, TypeSpec>, more: seq<TypeSpec>) returns (r: map<TypeKey, TypeSpec>)
    ensures r == WithTypes(types, more)
  {
    r := types;
    for i := 0 to |more|
      invariant r == WithTypes(types, more[..i])
    {
      assert more[..i + 1][..i] == more[..i];
      r := r[more[i].key := more[i]];
    }
    assert more[..|more|] == more;
  }

  ghost predicate Agreed(plugins: seq<Plugin>, nodes: map<NodeKey, Node>) {
    && Consistent(Owned(plugins) + Dependencies(plugins))
    && (forall k :: k in nodes ==> PortsDeclared(plugins, nodes[k]))
    && (forall p :: p in plugins ==> AllProjectionsDeclared(p))
    && forall contracts :: Collects(contracts, Owned(plugins) + Dependencies(plugins)) ==> OneTargetEach(contracts)
  }

  /** Freezing succeeds exactly when the plugins agree with each other and every registered
      type expands against what they declare together. */
  ghost predicate Freezable(s: State, humanize: string -> string) {
    && Agreed(s.plugins, s.nodes)
    && forall contracts, scalars, k ::
        (Collects(contracts, Owned(s.plugins) + Dependencies(s.plugins)) && Canonical(contracts, scalars) && k in s.types)
        ==> Expanded(ContextOf(s.types[k], contracts, scalars, humanize)).Ok?
  }

  lemma {:induction false} FreezableGiven(s: State, contracts: map<TypeKey, TypeSpec>, scalars: map<string, TypeKey>,
                                          humanize: string -> string)
    requires Agreed(s.plugins, s.nodes) && Checked(s, contracts, scalars)
    ensures Freezable(s, humanize) <==> forall k :: k in s.types ==> Expanded(ContextOf(s.types[k], contracts, scalars, humanize)).Ok?
  {
    var specs := Owned(s.plugins) + Dependencies(s.plugins);
    forall c | Collects(c, specs) ensures c == contracts { OneCollection(c, contracts, specs); }
    forall d | Canonical(contracts, d) ensures d == scalars { OneCanon(contracts, d, scalars); }
  }

  lemma {:induction false} CheckedAgree(s: State, contracts: map<TypeKey, TypeSpec>, scalars: map<string, TypeKey>)
    requires Checked(s, contracts, scalars)
    ensures Agreed(s.plugins, s.nodes)
  {
    var specs := Owned(s.plugins) + Dependencies(s.plugins);
    forall c | Collects(c, specs) ensures c == contracts { OneCollection(c, contracts, specs); }
  }

  lemma {:induction false} FreezesOnlyIf(s: State, t: State, humanize: string -> string)
    requires Freezes(s, t, humanize)
    ensures Freezable(s, humanize)
  {
    var contracts, scalars :| FreezesBy(s, t, contracts, scalars, humanize);
    CheckedAgree(s, contracts, scalars);
    FreezableGiven(s, contracts, scalars, humanize);
  }

  /** The checks before expansion, in their order. */
  method CheckInstalled(plugins: seq<Plugin>, nodes: map<NodeKey, Node>) returns (r: Option<(map<TypeKey, TypeSpec>, map<string, TypeKey>)>)
    requires DistinctKeys(Owned(plugins))
    ensures r.Some? <==> Agreed(plugins, nodes)
    ensures r.Some? ==> forall types, frozen :: Checked(State(plugins, nodes, types, frozen), r.value.0, r.value.1)
  {
    var contracts := CollectContracts(Owned(plugins), Dependencies(plugins));
    if contracts.None? {
      return None;
    }
    var ok := CheckNodes(plugins, nodes);
    if !ok {
      return None;
    }
    ok := CheckPlugins(plugins);
    if !ok {
      return None;
    }
    var scalars := CollectScalars(contracts.value);
    if scalars.None? {
      return None;
    }
    CheckedAgree(State(plugins, nodes, map[], false), contracts.value, scalars.value);
    return Some((contracts.value, scalars.value));
  }

  class PluginRegistry {
    var plugins: seq<Plugin>
    var nodes: map<NodeKey, Node>
    var types: map<TypeKey, TypeSpec>
    var frozen: bool
    const humanize: string -> string

    ghost function Contents(): State
      reads this
    {
      State(plugins, nodes, types, frozen)
    }

    ghost predicate Valid()
      reads this
    {
      Sound(Contents(), humanize)
    }

    constructor (humanize: string -> string)
      ensures Valid() && Contents() == State([], map[], map[], false) && this.humanize == humanize
    {
      plugins, nodes, types, frozen := [], map[], map[], false;
      this.humanize := humanize;
    }

    method Install(plugin: Plugin) returns (r: Result<(), InstallError>)
      requires Valid() && WellDeclared(plugin)
      modifies this
      ensures Valid()
      ensures r.Ok? <==> Installed(old(Contents()), plugin).Ok?
      ensures Contents() == if r.Ok? then Installed(old(Contents()), plugin).value else old(Contents())
      ensures r.Err? ==> r.error == Installed(old(Contents()), plugin).error
    {
      ghost var before := Contents();
      if frozen {
        return Err(IsFrozen);
      }
      if Find(plugins, plugin.slug).Some? {
        return Err(SlugTaken);
      }
      if exists n :: n in plugin.nodes && n.key in nodes {
        return Err(NodeTaken);
      }
      if exists t :: t in plugin.types && t.key in types {
        return Err(TypeTaken);
      }
      InstalledIsSound(before, plugin, humanize);
      nodes := AddNodes(nodes, plugin.nodes);
      types := AddTypes(types, plugin.types);
      plugins := plugins + [plugin];
      return Ok(());
    }

    /** Either every check passes and the types are expanded, or nothing changes. */
    method Freeze() returns (ok: bool)
      requires Valid()
      modifies this
      ensures Valid()
      ensures ok <==> Freezable(old(Contents()), humanize)
      ensures ok ==> frozen && Freezes(old(Contents()), Contents(), humanize)
      ensures !ok ==> Contents() == old(Contents())
      ensures old(frozen) ==> ok && Contents() == old(Contents())
    {
      ghost var before := Contents();
      if frozen { FreezesOnlyIf(before, before, humanize); }
      var checked := CheckInstalled(plugins, nodes);
      if checked.None? {
        return false;
      }
      var (contracts, scalars) := checked.value;
      var expanded := ExpandTypes(types, contracts, scalars, humanize);
      FreezableGiven(before, contracts, scalars, humanize);
      if expanded.None? {
        return false;
      }
      types := expanded.value;
      frozen := true;
      assert FreezesBy(before, Contents(), contracts, scalars, humanize);
      FrozenIsSound(before, Contents(), humanize);
      return true;
    }
  }
}
