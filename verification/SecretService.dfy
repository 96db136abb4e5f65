/** The node secret service: its status loop, and the calls that change the secret store. */
module SecretService {
  import opened Text
  import opened Json
  import opened SecretModel
  import opened SecretRuns

  /** The lines `status` adds for one node whose contract is readable. */
  method NodeStates(w: World, project: ProjectKey, graph: string, node: Node,
                    contract: Contract) returns (r: Result<seq<SecretState>, Error>)
    requires ContractOf(w, node) == Ok(contract)
    ensures r.Ok? ==> ReportsNode(w, project, graph, node, Report(r.value, []))
    ensures r.Err? ==> exists input :: input in contract.secrets && StateOf(w, project, graph, node, contract.config, input) == Err(r.error)
  {
    var states: seq<SecretState> := [];
    for i := 0 to |contract.secrets|
      invariant |states| == i
      invariant forall j :: 0 <= j < i ==> StateOf(w, project, graph, node, contract.config, contract.secrets[j]) == Ok(states[j])
    {
      var state := StateOf(w, project, graph, node, contract.config, contract.secrets[i]);
      if state.Err? {
        assert contract.secrets[i] in contract.secrets;
        return Err(state.error);
      }
      states := states + [state.value];
    }
    return Ok(states);
  }

  lemma {:induction false} ReportsOneMore(w: World, project: ProjectKey, graph: string, nodes: seq<Node>, k: nat, a: Report, b: Report)
    requires k < |nodes| && Reports(w, project, graph, nodes[..k], a) && ReportsNode(w, project, graph, nodes[k], b)
    ensures Reports(w, project, graph, nodes[..k + 1], Join(a, b))
  {
    assert nodes[..k + 1][..k] == nodes[..k];
  }

  lemma {:induction false} ComparableStates(w: World, project: ProjectKey, graph: string, nodes: seq<Node>, report: Report)
    requires Reports(w, project, graph, nodes, report)
    ensures !Incomparable(w, project, graph, nodes)
  {
    forall node, input | node in nodes && ContractOf(w, node).Ok? && input in ContractOf(w, node).value.secrets
      ensures StateOf(w, project, graph, node, ContractOf(w, node).value.config, input).Ok?
    {
      ReportCovers(w, project, graph, nodes, report, node, input);
    }
  }

  /** `status`: it fails only when the graph is missing or a secret cannot be compared. */
  method Status(w: World, project: ProjectKey, graph: string) returns (r: Result<Report, Error>)
    ensures r.Ok? <==> GraphOf(w, project, graph).Ok? && !Incomparable(w, project, graph, GraphOf(w, project, graph).value)
    ensures r.Ok? ==> Reports(w, project, graph, GraphOf(w, project, graph).value, r.value)
  {
    var found := GraphOf(w, project, graph);
    if found.Err? {
      return Err(found.error);
    }
    var nodes := found.value;
    var report := Report([], []);
    for i := 0 to |nodes|
      invariant Reports(w, project, graph, nodes[..i], report)
    {
      var node := nodes[i];
      var contract := ContractOf(w, node);
      if contract.Err? {
        var line := Report([], [(node.id, contract.error)]);
        ReportsOneMore(w, project, graph, nodes, i, report, line);
        report := Join(report, line);
        continue;
      }
      var states := NodeStates(w, project, graph, node, contract.value);
      if states.Err? {
        assert node in nodes;
        return Err(states.error);
      }
      ReportsOneMore(w, project, graph, nodes, i, report, Report(states.value, []));
      report := Join(report, Report(states.value, []));
    }
    assert nodes[..|nodes|] == nodes;
    ComparableStates(w, project, graph, nodes, report);
    return Ok(report);
  }

  class NodeSecretService {
    var heads: map<ProjectKey, Head>
    var records: map<Place, Record>
    const operators: map<OperatorKey, Operator>
    const key: Option<Key>
    ghost var last: map<Place, Last>

    function Contents(): World
      reads this
    {
      World(heads, operators, key, records)
    }

    /** The store holds exactly what was configured last, place by place. */
    ghost predicate Valid()
      reads this
    {
      Remembers(Contents(), last)
    }

    constructor (operators: map<OperatorKey, Operator>, key: Option<Key>, heads: map<ProjectKey, Head>)
      ensures Valid() && Contents() == World(heads, operators, key, map[]) && last == map[]
    {
      this.operators, this.key, this.heads := operators, key, heads;
      records, last := map[], map[];
    }

    /** A value that was accepted can be resolved at once. */
    method Configure(place: Place, value: string, expected: int, nonce: nat) returns (r: Result<SecretState, Error>)
      requires Valid()
      modifies this
      ensures Valid() && heads == old(heads)
      ensures Contents() == Next(old(Contents()), Event.Configure(place, value, expected, nonce))
      ensures last == Recall(old(Contents()), old(last), Event.Configure(place, value, expected, nonce))
      ensures r.Ok? <==> Configured(old(Contents()), place, value, expected, nonce).Ok?
      ensures r.Ok? ==> r.value == SecretState(place.node, place.name, true)
      ensures r.Ok? ==>
                && BindingOf(Contents(), place).Ok?
                && Resolve(Contents(), place, BindingOf(Contents(), place).value.dependencies) == Ok(value)
    {
      ghost var before, history := Contents(), last;
      NextRemembers(before, history, Event.Configure(place, value, expected, nonce));
      if place.project !in heads {
        return Err(NoProject);
      }
      if heads[place.project].sequence != expected {
        return Err(HeadConflict);
      }
      var binding := BindingOf(Contents(), place);
      if binding.Err? {
        return Err(binding.error);
      }
      if value == "" {
        return Err(EmptyValue);
      }
      if Utf8Length(value) > MAX_BYTES {
        return Err(TooLong);
      }
      if key.None? {
        return Err(NoKey);
      }
      if !Canonical(binding.value.dependencies) {
        return Err(NotCanonical);
      }
      if Blank(place.node) || Blank(place.name) || Blank(binding.value.operator.0) || binding.value.operator.1 < 1 {
        return Err(InvalidRecord);
      }
      records := records[place := Seal(binding.value, value, key.value, nonce)];
      last := last[place := Last(value, binding.value, key.value, nonce)];
      BindingSurvives(before, Contents(), place);
      ResolveExact(Contents(), last, place, binding.value.dependencies);
      return Ok(SecretState(place.node, place.name, true));
    }

    method Remove(place: Place, expected: int) returns (r: Result<(), Error>)
      requires Valid()
      modifies this
      ensures Valid() && heads == old(heads)
      ensures Contents() == Next(old(Contents()), Event.Remove(place, expected))
      ensures last == Recall(old(Contents()), old(last), Event.Remove(place, expected))
      ensures r.Ok? ==> place !in records && forall d :: Resolve(Contents(), place, d).Err?
      ensures r.Err? ==> Contents() == old(Contents())
    {
      NextRemembers(Contents(), last, Event.Remove(place, expected));
      if place.project !in heads {
        return Err(NoProject);
      }
      if heads[place.project].sequence != expected {
        return Err(HeadConflict);
      }
      var binding := BindingOf(Contents(), place);
      if binding.Err? {
        return Err(binding.error);
      }
      records := records - {place};
      last := last - {place};
      return Ok(());
    }

    /** Missing context is refused before anything is read. */
    method ResolveSecret(workspace: string, project: Option<string>, graph: Option<string>, node: Option<string>,
                         name: string, dependencies: Fields)
      returns (r: Result<string, Error>)
      requires Valid()
      ensures project.None? || graph.None? || node.None? ==> r == Err(NoContext)
      ensures project.Some? && graph.Some? && node.Some? ==>
                var place := Place((workspace, project.value), graph.value, node.value, name);
                && r == Resolve(Contents(), place, dependencies)
                && (r.Ok? ==> place in last && r.value == last[place].value && last[place].binding.dependencies == dependencies)
    {
      if project.None? || graph.None? || node.None? {
        return Err(NoContext);
      }
      var place := Place((workspace, project.value), graph.value, node.value, name);
      ResolveExact(Contents(), last, place, dependencies);
      return Resolve(Contents(), place, dependencies);
    }
  }

  lemma {:induction false} BindingSurvives(w: World, u: World, place: Place)
    requires u == w.(records := u.records)
    ensures BindingOf(u, place) == BindingOf(w, place)
  {
  }
}
