/** Node secrets (apps/api/src/grafy_api/node_secrets.py). Encryption and digests are ideal:
    a sealed value opens only under the key, nonce and associated data it was sealed with,
    and a digest tells apart whatever it was taken of. */
module SecretModel {
  import opened Text
  import opened Json

  // ---------------------------------------------------------------- ideal primitives

  type Key = nat

  datatype KeyId = KeyIdOf(key: Key)

  datatype Digest = DigestOf(dependencies: Fields)

  datatype Sealed = Sealed(key: Key, nonce: nat, plaintext: string, aad: Binding)

  function Open(c: Sealed, key: Key, nonce: nat, aad: Binding): Option<string> {
    if c.key == key && c.nonce == nonce && c.aad == aad then Some(c.plaintext) else None
  }

  /** The value has a canonical JSON text: it holds no NaN and no infinity. */
  predicate Finite(v: Value) {
    match v
    case NonFinite => false
    case Array(items) => forall i :: 0 <= i < |items| ==> Finite(items[i])
    case Object(fields) => forall k :: k in fields ==> Finite(fields[k])
    case _ => true
  }

  predicate Canonical(f: Fields) { forall k :: k in f ==> Finite(f[k]) }

  function Utf8Length(s: string): nat {
    if s == "" then 0
    else
      var c := s[|s| - 1] as int;
      Utf8Length(s[..|s| - 1]) + if c < 0x80 then 1 else if c < 0x800 then 2 else if c < 0x10000 then 3 else 4
  }

  const MAX_BYTES := 65536

  // ---------------------------------------------------------------- documents and operators

  datatype SecretInput = SecretInput(name: string, dependencies: seq<string>)

  /** `dump` validates a node's configuration and gives it back as JSON. */
  datatype Operator = Operator(secrets: seq<SecretInput>, dump: Fields -> Option<Fields>)

  type OperatorKey = (string, int)

  datatype Node = Node(id: string, operator: OperatorKey, config: Fields)

  datatype Head = Head(sequence: int, graphs: map<string, seq<Node>>)

  /** A workspace and a project. */
  type ProjectKey = (string, string)

  datatype Place = Place(project: ProjectKey, graph: string, node: string, name: string)

  datatype Binding = Binding(place: Place, operator: OperatorKey, dependencies: Fields)

  datatype Record = Record(operator: OperatorKey, keyId: KeyId, digest: Digest, nonce: nat, ciphertext: Sealed)

  datatype World = World(
    heads: map<ProjectKey, Head>, operators: map<OperatorKey, Operator>, key: Option<Key>, records: map<Place, Record>)

  datatype Error =
    | NoProject | NoGraph | NoNode | NoOperator | InvalidConfig | NoDeclaration | MissingField
    | HeadConflict | EmptyValue | TooLong | NoKey | NotCanonical | InvalidRecord
    | NoContext | WrongDependencies | NotConfigured | Stale | WrongKey | CannotOpen

  // ---------------------------------------------------------------- bindings

  function FindNode(nodes: seq<Node>, id: string): (r: Option<Node>)
    ensures r.Some? ==> r.value in nodes && r.value.id == id
    ensures r.None? <==> forall n :: n in nodes ==> n.id != id
  {
    if nodes == [] then None else if nodes[0].id == id then Some(nodes[0]) else FindNode(nodes[1..], id)
  }

  function FindSecret(secrets: seq<SecretInput>, name: string): (r: Option<SecretInput>)
    ensures r.Some? ==> r.value in secrets && r.value.name == name
    ensures r.None? <==> forall d :: d in secrets ==> d.name != name
  {
    if secrets == [] then None else if secrets[0].name == name then Some(secrets[0]) else FindSecret(secrets[1..], name)
  }

  datatype Contract = Contract(secrets: seq<SecretInput>, config: Fields)

  function ContractOf(w: World, node: Node): Result<Contract, Error> {
    if node.operator !in w.operators then Err(NoOperator)
    else
      var operator := w.operators[node.operator];
      var config := operator.dump(node.config);
      if config.None? then Err(InvalidConfig) else Ok(Contract(operator.secrets, config.value))
  }

  function DeclaredDependencies(input: SecretInput, config: Fields): Result<Fields, Error> {
    if forall d :: d in input.dependencies ==> d in config then Ok(map d | d in input.dependencies :: config[d]) else Err(MissingField)
  }

  function GraphOf(w: World, project: ProjectKey, graph: string): Result<seq<Node>, Error> {
    if project !in w.heads then Err(NoProject)
    else if graph !in w.heads[project].graphs then Err(NoGraph)
    else Ok(w.heads[project].graphs[graph])
  }

  function BindingOf(w: World, place: Place): Result<Binding, Error> {
    var nodes := GraphOf(w, place.project, place.graph);
    if nodes.Err? then Err(nodes.error)
    else
      var node := FindNode(nodes.value, place.node);
      if node.None? then Err(NoNode)
      else
        var contract := ContractOf(w, node.value);
        if contract.Err? then Err(contract.error)
        else
          var input := FindSecret(contract.value.secrets, place.name);
          if input.None? then Err(NoDeclaration)
          else
            var dependencies := DeclaredDependencies(input.value, contract.value.config);
            if dependencies.Err? then Err(dependencies.error)
            else Ok(Binding(place, node.value.operator, dependencies.value))
  }

  // ---------------------------------------------------------------- operations

  predicate Blank(s: string) { Trim(s, IsPythonSpace) == "" }

  function Configured(w: World, place: Place, value: string, expected: int, nonce: nat): Result<World, Error> {
    if place.project !in w.heads then Err(NoProject)
    else if w.heads[place.project].sequence != expected then Err(HeadConflict)
    else
      var binding := BindingOf(w, place);
      if binding.Err? then Err(binding.error)
      else if value == "" then Err(EmptyValue)
      else if Utf8Length(value) > MAX_BYTES then Err(TooLong)
      else if w.key.None? then Err(NoKey)
      else if !Canonical(binding.value.dependencies) then Err(NotCanonical)
      else if Blank(place.node) || Blank(place.name) || Blank(binding.value.operator.0) || binding.value.operator.1 < 1
          then Err(InvalidRecord)
      else Ok(w.(records := w.records[place := Seal(binding.value, value, w.key.value, nonce)]))
  }

  function Seal(binding: Binding, value: string, key: Key, nonce: nat): Record {
    Record(binding.operator, KeyIdOf(key), DigestOf(binding.dependencies), nonce, Sealed(key, nonce, value, binding))
  }

  function Removed(w: World, place: Place, expected: int): Result<World, Error> {
    if place.project !in w.heads then Err(NoProject)
    else if w.heads[place.project].sequence != expected then Err(HeadConflict)
    else
      var binding := BindingOf(w, place);
      if binding.Err? then Err(binding.error) else Ok(w.(records := w.records - {place}))
  }

  /** `resolve_secret`: the path that hands a plaintext to a running node. */
  function Resolve(w: World, place: Place, dependencies: Fields): Result<string, Error> {
    var binding := BindingOf(w, place);
    if binding.Err? then Err(binding.error)
    else if !Canonical(dependencies) || !Canonical(binding.value.dependencies) then Err(NotCanonical)
    else if dependencies != binding.value.dependencies then Err(WrongDependencies)
    else if place !in w.records then Err(NotConfigured)
    else
      var record := w.records[place];
      if record.operator != binding.value.operator || record.digest != DigestOf(binding.value.dependencies) then Err(Stale)
      else if w.key.None? then Err(NoKey)
      else if record.keyId != KeyIdOf(w.key.value) then Err(WrongKey)
      else
        var plain := Open(record.ciphertext, w.key.value, record.nonce, binding.value);
        if plain.None? then Err(CannotOpen) else Ok(plain.value)
  }

  // ---------------------------------------------------------------- status

  datatype SecretState = SecretState(node: string, name: string, configured: bool)

  datatype Report = Report(secrets: seq<SecretState>, unresolved: seq<(string, Error)>)

  /** `status` compares the record with the node, without decrypting anything. */
  function IsConfigured(w: World, place: Place, operator: OperatorKey, dependencies: Fields): Result<bool, Error> {
    if place !in w.records then Ok(false)
    else
      var record := w.records[place];
      if record.operator != operator || w.key.None? || record.keyId != KeyIdOf(w.key.value) then Ok(false)
      else if !Canonical(dependencies) then Err(NotCanonical)
      else Ok(record.digest == DigestOf(dependencies))
  }

  /** What `status` says about one declared secret of a node. */
  function StateOf(w: World, project: ProjectKey, graph: string, node: Node, config: Fields,
                   input: SecretInput): Result<SecretState, Error> {
    var dependencies := DeclaredDependencies(input, config);
    if dependencies.Err? then Err(dependencies.error)
    else
      var configured := IsConfigured(w, Place(project, graph, node.id, input.name), node.operator, dependencies.value);
      if configured.Err? then Err(configured.error) else Ok(SecretState(node.id, input.name, configured.value))
  }

  /** `node` is reported as unresolved, or each of its secrets is reported in order. */
  ghost predicate ReportsNode(w: World, project: ProjectKey, graph: string, node: Node, report: Report) {
    var contract := ContractOf(w, node);
    if contract.Err? then report == Report([], [(node.id, contract.error)])
    else
      && report.unresolved == [] && |report.secrets| == |contract.value.secrets|
      && forall i :: 0 <= i < |report.secrets| ==>
          StateOf(w, project, graph, node, contract.value.config, contract.value.secrets[i]) == Ok(report.secrets[i])
  }

  function Join(a: Report, b: Report): Report { Report(a.secrets + b.secrets, a.unresolved + b.unresolved) }

  /** The reports of all nodes, in document order. */
  ghost predicate Reports(w: World, project: ProjectKey, graph: string, nodes: seq<Node>, report: Report) {
    if nodes == [] then report == Report([], [])
    else exists a, b ::
        && Reports(w, project, graph, nodes[..|nodes| - 1], a)
        && ReportsNode(w, project, graph, nodes[|nodes| - 1], b) && report == Join(a, b)
  }

  /** Some declared secret of the graph cannot be compared: its node is readable, but its
      dependencies are missing from the configuration or have no canonical text. */
  ghost predicate Incomparable(w: World, project: ProjectKey, graph: string, nodes: seq<Node>) {
    exists node, input :: node in nodes && ContractOf(w, node).Ok? && input in ContractOf(w, node).value.secrets
                       && StateOf(w, project, graph, node, ContractOf(w, node).value.config, input).Err?
  }

  /** What every saved document and every registered operator satisfies. */
  ghost predicate WellFormed(w: World) {
    && (forall p, g :: p in w.heads && g in w.heads[p].graphs ==> DistinctNodes(w.heads[p].graphs[g]))
    && (forall o :: o in w.operators ==> DistinctNames(w.operators[o].secrets))
  }

  ghost predicate DistinctNodes(nodes: seq<Node>) { forall i, j :: 0 <= i < j < |nodes| ==> nodes[i].id != nodes[j].id }

  ghost predicate DistinctNames(secrets: seq<SecretInput>) { forall i, j :: 0 <= i < j < |secrets| ==> secrets[i].name != secrets[j].name }
}
