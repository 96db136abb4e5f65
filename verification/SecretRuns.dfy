/** Status and resolution agree in every reachable world. */
module SecretRuns {
  import opened Text
  import opened Json
  import opened SecretModel

  // ---------------------------------------------------------------- what was configured last

  /** The last successful configuration of a place that no removal followed. */
  datatype Last = Last(value: string, binding: Binding, key: Key, nonce: nat)

  ghost predicate Remembers(w: World, last: map<Place, Last>) {
    && w.records.Keys == last.Keys
    && forall p :: p in last ==>
        && w.records[p] == Seal(last[p].binding, last[p].value, last[p].key, last[p].nonce)
        && last[p].binding.place == p
  }

  datatype Event =
    | Configure(place: Place, value: string, expected: int, nonce: nat)
    | Remove(place: Place, expected: int)
    | EditHead(project: ProjectKey, head: Option<Head>)
    | Deploy(operators: map<OperatorKey, Operator>, key: Option<Key>)

  function Next(w: World, e: Event): World {
    match e
    case Configure(place, value, expected, nonce) =>
      var r := Configured(w, place, value, expected, nonce);
      if r.Ok? then r.value else w
    case Remove(place, expected) =>
      var r := Removed(w, place, expected);
      if r.Ok? then r.value else w
    case EditHead(project, head) =>
      w.(heads := if head.Some? then w.heads[project := head.value] else w.heads - {project})
    case Deploy(operators, key) => w.(operators := operators, key := key)
  }

  /** The history a run leaves, kept beside the world. */
  function Recall(w: World, last: map<Place, Last>, e: Event): map<Place, Last> {
    match e
    case Configure(place, value, expected, nonce) =>
      if Configured(w, place, value, expected, nonce).Ok?
      then last[place := Last(value, BindingOf(w, place).value, w.key.value, nonce)]
      else last
    case Remove(place, expected) => if Removed(w, place, expected).Ok? then last - {place} else last
    case _ => last
  }

  function Run(w: World, events: seq<Event>): World {
    if events == [] then w else Next(Run(w, events[..|events| - 1]), events[|events| - 1])
  }

  function History(w: World, events: seq<Event>): map<Place, Last> {
    if events == [] then map[]
    else Recall(Run(w, events[..|events| - 1]), History(w, events[..|events| - 1]), events[|events| - 1])
  }

  lemma {:induction false} BindingIsPlaced(w: World, place: Place)
    requires BindingOf(w, place).Ok?
    ensures BindingOf(w, place).value.place == place
  {
  }

  lemma {:induction false} NextRemembers(w: World, last: map<Place, Last>, e: Event)
    requires Remembers(w, last)
    ensures Remembers(Next(w, e), Recall(w, last, e))
  {
    if e.Configure? && Configured(w, e.place, e.value, e.expected, e.nonce).Ok? { BindingIsPlaced(w, e.place); }
  }

  lemma {:induction false} RunRemembers(w: World, events: seq<Event>)
    requires w.records == map[]
    ensures Remembers(Run(w, events), History(w, events))
  {
    if events != [] {
      RunRemembers(w, events[..|events| - 1]);
      NextRemembers(Run(w, events[..|events| - 1]), History(w, events[..|events| - 1]), events[|events| - 1]);
    }
  }

  // ---------------------------------------------------------------- resolution, from the history

  /** What was configured last is for the node as it is now and for the active key. */
  ghost predicate StillFits(w: World, last: map<Place, Last>, place: Place, binding: Binding) {
    place in last && last[place].binding == binding && w.key == Some(last[place].key) && Canonical(binding.dependencies)
  }

  /** Resolution succeeds exactly when the last configuration still fits and the caller
      names the node's own dependencies; it then gives the value configured last. */
  lemma {:induction false} ResolveExact(w: World, last: map<Place, Last>, place: Place, dependencies: Fields)
    requires Remembers(w, last)
    ensures Resolve(w, place, dependencies).Ok? <==>
              BindingOf(w, place).Ok? && dependencies == BindingOf(w, place).value.dependencies
                  && StillFits(w, last, place, BindingOf(w, place).value)
    ensures Resolve(w, place, dependencies).Ok? ==> Resolve(w, place, dependencies).value == last[place].value
  {
    if BindingOf(w, place).Ok? && place in last {
      BindingIsPlaced(w, place);
      var binding, was := BindingOf(w, place).value, last[place].binding;
      assert w.records[place] == Seal(was, last[place].value, last[place].key, last[place].nonce);
      if was.operator == binding.operator && was.dependencies == binding.dependencies { assert was == binding; }
    }
  }

  lemma {:induction false} ConfiguredExact(w: World, last: map<Place, Last>, binding: Binding)
    requires Remembers(w, last) && IsConfigured(w, binding.place, binding.operator, binding.dependencies).Ok?
    ensures IsConfigured(w, binding.place, binding.operator, binding.dependencies).value <==> StillFits(w, last, binding.place, binding)
  {
    var place := binding.place;
    if place in last {
      var was := last[place].binding;
      assert w.records[place] == Seal(was, last[place].value, last[place].key, last[place].nonce);
      if was.operator == binding.operator && was.dependencies == binding.dependencies { assert was == binding; }
    }
  }

  // ---------------------------------------------------------------- agreement

  lemma {:induction false} FindNodeFinds(nodes: seq<Node>, node: Node)
    requires DistinctNodes(nodes) && node in nodes
    ensures FindNode(nodes, node.id) == Some(node)
  {
    if nodes[0] != node {
      var i :| 0 <= i < |nodes| && nodes[i] == node;
      FindNodeFinds(nodes[1..], node);
    }
  }

  lemma {:induction false} FindSecretFinds(secrets: seq<SecretInput>, input: SecretInput)
    requires DistinctNames(secrets) && input in secrets
    ensures FindSecret(secrets, input.name) == Some(input)
  {
    if secrets[0] != input {
      var i :| 0 <= i < |secrets| && secrets[i] == input;
      FindSecretFinds(secrets[1..], input);
    }
  }

  lemma {:induction false} DeclaredBinding(w: World, project: ProjectKey, graph: string, node: Node, input: SecretInput)
    requires WellFormed(w) && GraphOf(w, project, graph).Ok? && node in GraphOf(w, project, graph).value
    requires ContractOf(w, node).Ok? && input in ContractOf(w, node).value.secrets
    requires DeclaredDependencies(input, ContractOf(w, node).value.config).Ok?
    ensures BindingOf(w, Place(project, graph, node.id, input.name))
         == Ok(Binding(Place(project, graph, node.id, input.name), node.operator,
             DeclaredDependencies(input, ContractOf(w, node).value.config).value))
  {
    assert DistinctNodes(w.heads[project].graphs[graph]);
    FindNodeFinds(GraphOf(w, project, graph).value, node);
    assert DistinctNames(w.operators[node.operator].secrets);
    FindSecretFinds(ContractOf(w, node).value.secrets, input);
  }

  /** One declared secret: reported as configured exactly when resolution, given the node's
      declared dependencies, returns the value configured last. */
  lemma {:induction false} StateAgrees(w: World, last: map<Place, Last>, project: ProjectKey, graph: string, node: Node, input: SecretInput)
    requires Remembers(w, last) && WellFormed(w) && GraphOf(w, project, graph).Ok? && node in GraphOf(w, project, graph).value
    requires ContractOf(w, node).Ok? && input in ContractOf(w, node).value.secrets
    requires StateOf(w, project, graph, node, ContractOf(w, node).value.config, input).Ok?
    ensures var place := Place(project, graph, node.id, input.name);
            var dependencies := DeclaredDependencies(input, ContractOf(w, node).value.config);
            var state := StateOf(w, project, graph, node, ContractOf(w, node).value.config, input).value;
            && state.node == node.id && state.name == input.name && dependencies.Ok?
            && (state.configured <==> place in last && Resolve(w, place, dependencies.value) == Ok(last[place].value))
            && (state.configured <==> Resolve(w, place, dependencies.value).Ok?)
  {
    var place := Place(project, graph, node.id, input.name);
    var dependencies := DeclaredDependencies(input, ContractOf(w, node).value.config).value;
    DeclaredBinding(w, project, graph, node, input);
    ResolveExact(w, last, place, dependencies);
    ConfiguredExact(w, last, Binding(place, node.operator, dependencies));
  }

  lemma {:induction false} ReportHas(w: World, project: ProjectKey, graph: string, nodes: seq<Node>, report: Report, state: SecretState)
      returns (node: Node, input: SecretInput)
    requires Reports(w, project, graph, nodes, report) && state in report.secrets
    ensures node in nodes && ContractOf(w, node).Ok? && input in ContractOf(w, node).value.secrets
    ensures StateOf(w, project, graph, node, ContractOf(w, node).value.config, input) == Ok(state)
  {
    var a, b :| Reports(w, project, graph, nodes[..|nodes| - 1], a) && ReportsNode(w, project, graph, nodes[|nodes| - 1], b)
        && report == Join(a, b);
    if state in a.secrets {
      node, input := ReportHas(w, project, graph, nodes[..|nodes| - 1], a, state);
    } else {
      node := nodes[|nodes| - 1];
      var i :| 0 <= i < |b.secrets| && b.secrets[i] == state;
      input := ContractOf(w, node).value.secrets[i];
    }
  }

  /** A report has a line for every secret of every node it can resolve. */
  lemma {:induction false} ReportCovers(w: World, project: ProjectKey, graph: string, nodes: seq<Node>, report: Report,
                                        node: Node, input: SecretInput)
    requires Reports(w, project, graph, nodes, report) && node in nodes && ContractOf(w, node).Ok?
    requires input in ContractOf(w, node).value.secrets
    ensures StateOf(w, project, graph, node, ContractOf(w, node).value.config, input).Ok?
    ensures StateOf(w, project, graph, node, ContractOf(w, node).value.config, input).value in report.secrets
  {
    var a, b :| Reports(w, project, graph, nodes[..|nodes| - 1], a) && ReportsNode(w, project, graph, nodes[|nodes| - 1], b)
        && report == Join(a, b);
    if node == nodes[|nodes| - 1] {
      var i :| 0 <= i < |b.secrets| && ContractOf(w, node).value.secrets[i] == input;
      assert b.secrets[i] in report.secrets;
    } else {
      ReportCovers(w, project, graph, nodes[..|nodes| - 1], a, node, input);
    }
  }

  /** Over every run of configurations, removals, document edits and deployments, each line
      of a status report is right about what resolution would return. */
  lemma {:induction false} StatusAgreesWithResolve(start: World, events: seq<Event>, project: ProjectKey, graph: string,
                                                   report: Report, state: SecretState)
    requires start.records == map[] && WellFormed(Run(start, events))
    requires GraphOf(Run(start, events), project, graph).Ok?
    requires Reports(Run(start, events), project, graph, GraphOf(Run(start, events), project, graph).value, report)
    requires state in report.secrets
    ensures var w, last, place := Run(start, events), History(start, events), Place(project, graph, state.node, state.name);
            && BindingOf(w, place).Ok?
            && var own := BindingOf(w, place).value.dependencies;
               && (state.configured <==> place in last && Resolve(w, place, own) == Ok(last[place].value))
               && (state.configured <==> Resolve(w, place, own).Ok?)
               && (state.configured <==> StillFits(w, last, place, BindingOf(w, place).value))
  {
    var w, last := Run(start, events), History(start, events);
    RunRemembers(start, events);
    var node, input := ReportHas(w, project, graph, GraphOf(w, project, graph).value, report, state);
    StateAgrees(w, last, project, graph, node, input);
    DeclaredBinding(w, project, graph, node, input);
    ResolveExact(w, last, Place(project, graph, node.id, input.name), DeclaredDependencies(input, ContractOf(w, node).value.config).value);
  }

  /** A node that status cannot resolve has no secret that resolves. */
  lemma {:induction false} UnresolvedNodeResolvesNothing(w: World, project: ProjectKey, graph: string, node: Node,
                                                         name: string, dependencies: Fields)
    requires WellFormed(w) && GraphOf(w, project, graph).Ok? && node in GraphOf(w, project, graph).value && ContractOf(w, node).Err?
    ensures Resolve(w, Place(project, graph, node.id, name), dependencies) == Err(ContractOf(w, node).error)
  {
    assert DistinctNodes(w.heads[project].graphs[graph]);
    FindNodeFinds(GraphOf(w, project, graph).value, node);
  }
}
