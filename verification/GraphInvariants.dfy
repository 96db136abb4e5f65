/** What every run of authoring calls keeps: stable bindings, typed edges, identifiers
    that never collide, and at most one edge on an input that is not variadic. */
module GraphInvariants {
  import opened Text
  import opened Artifacts
  import opened GraphModel
  import T = Topology

  // ---------------------------------------------------------------- conversion paths

  /** `types` is a path of distinct artifact types along the named conversions. */
  ghost predicate TypePath(conversions: seq<Conversion>, path: seq<ConversionRef>, types: seq<TypeKey>) {
    && |types| == |path| + 1
    && T.Distinct(types)
    && forall k :: 0 <= k < |path| ==>
         && Lookup(conversions, path[k]).Some?
         && Lookup(conversions, path[k]).value.source == types[k]
         && Lookup(conversions, path[k]).value.target == types[k + 1]
  }

  ghost predicate Chains(chain: seq<Conversion>, types: seq<TypeKey>) {
    && |types| == |chain| + 1
    && T.Distinct(types)
    && forall k :: 0 <= k < |chain| ==> chain[k].source == types[k] && chain[k].target == types[k + 1]
  }

  ghost predicate Avoids(types: seq<TypeKey>, visited: set<TypeKey>) {
    forall k :: 1 <= k < |types| ==> types[k] !in visited
  }

  /** The walk succeeds only along a chain of fresh, distinct types. */
  lemma {:induction false} FollowSound(chain: seq<Conversion>, current: TypeKey, visited: set<TypeKey>) returns (types: seq<TypeKey>)
    requires current in visited && Follow(chain, current, visited).Ok?
    ensures Chains(chain, types) && types[0] == current && Avoids(types, visited)
    ensures types[|chain|] == Follow(chain, current, visited).value
  {
    if chain == [] {
      types := [current];
    } else {
      var rest := FollowSound(chain[1..], chain[0].target, visited + {chain[0].target});
      types := [current] + rest;
      forall k | 0 <= k < |chain| ensures chain[k].source == types[k] && chain[k].target == types[k + 1] {
        if k > 0 { assert chain[1..][k - 1] == chain[k]; }
      }
      forall a, b | 0 <= a < b < |types| ensures types[a] != types[b] {
        if a == 0 {
          if b > 1 { assert rest[b - 1] !in visited + {chain[0].target}; }
        } else {
          assert rest[a - 1] != rest[b - 1];
        }
      }
      forall k | 1 <= k < |types| ensures types[k] !in visited {
        if k > 1 { assert rest[k - 1] !in visited + {chain[0].target}; }
      }
    }
  }

  /** And every such chain is followed to its end. */
  lemma {:induction false} FollowComplete(chain: seq<Conversion>, visited: set<TypeKey>, types: seq<TypeKey>)
    requires Chains(chain, types) && Avoids(types, visited)
    ensures Follow(chain, types[0], visited) == Ok(types[|chain|])
  {
    if chain != [] {
      var rest := types[1..];
      assert chain[0].source == types[0] && chain[0].target == types[1];
      forall k | 0 <= k < |chain[1..]| ensures chain[1..][k].source == rest[k] && chain[1..][k].target == rest[k + 1] {
        assert chain[k + 1].source == types[k + 1];
      }
      forall k | 1 <= k < |rest| ensures rest[k] !in visited + {types[1]} {
        assert types[k + 1] !in visited && types[1] != types[k + 1];
      }
      FollowComplete(chain[1..], visited + {types[1]}, rest);
    }
  }

  lemma {:induction false} ChainsAreTypePaths(conversions: seq<Conversion>, path: seq<ConversionRef>,
                                              chain: seq<Conversion>, types: seq<TypeKey>)
    requires LookupAll(conversions, path) == Some(chain)
    ensures Chains(chain, types) <==> TypePath(conversions, path, types)
  {
  }

  /** Type inference accepts a connection exactly when some path of distinct types joins
      its two ends and agrees with every end that already has a type. */
  lemma {:induction false} InferExact(conversions: seq<Conversion>, source: Option<TypeKey>, target: Option<TypeKey>,
                                      path: seq<ConversionRef>, from: TypeKey, to: TypeKey)
    ensures Infer(conversions, source, target, path) == Ok(Types(from, to)) <==>
            && (source.Some? || target.Some?)
            && (source.Some? ==> source.value == from)
            && (target.Some? ==> target.value == to)
            && exists types :: TypePath(conversions, path, types) && types[0] == from && types[|path|] == to
  {
    var chain := LookupAll(conversions, path);
    if Infer(conversions, source, target, path) == Ok(Types(from, to)) {
      var types := FollowSound(chain.value, from, {from});
      ChainsAreTypePaths(conversions, path, chain.value, types);
    }
    if && (source.Some? || target.Some?) && (source.Some? ==> source.value == from) && (target.Some? ==> target.value == to)
       && exists types :: TypePath(conversions, path, types) && types[0] == from && types[|path|] == to
    {
      var types :| TypePath(conversions, path, types) && types[0] == from && types[|path|] == to;
      assert chain.Some?;
      ChainsAreTypePaths(conversions, path, chain.value, types);
      assert Avoids(types, {from});
      FollowComplete(chain.value, {from}, types);
    }
  }

  // ---------------------------------------------------------------- identifiers

  lemma {:induction false} DashedChars(s: string, inGap: bool)
    ensures forall c :: c in Dashed(s, inGap) ==> IsSlugChar(c) || c == '-'
  {
    if s != [] {
      DashedChars(s[1..], false);
      DashedChars(s[1..], true);
    }
  }

  lemma {:induction false} TrimKeepsChars(s: string, space: char -> bool)
    ensures forall c :: c in Trim(s, space) ==> c in s
  {
    TrimStartKeepsChars(s, space);
    TrimEndKeepsChars(TrimStart(s, space), space);
  }

  lemma {:induction false} TrimStartKeepsChars(s: string, space: char -> bool)
    ensures forall c :: c in TrimStart(s, space) ==> c in s
  {
    if s != [] && space(s[0]) { TrimStartKeepsChars(s[1..], space); }
  }

  lemma {:induction false} TrimEndKeepsChars(s: string, space: char -> bool)
    ensures forall c :: c in TrimEnd(s, space) ==> c in s
  {
    if s != [] && space(s[|s| - 1]) { TrimEndKeepsChars(s[..|s| - 1], space); }
  }

  lemma {:induction false} SlugChars(lowered: string)
    ensures forall c :: c in Slug(lowered) ==> !IsSpace(c)
  {
    DashedChars(lowered, false);
    TrimKeepsChars(Dashed(lowered, false), c => c == '-');
  }

  lemma {:induction false} EndsClean(a: string, b: string)
    requires a != [] && b != [] && !IsSpace(a[0]) && !IsSpace(b[|b| - 1])
    ensures Strip(a + b) == a + b
  {
    TrimFixesClean(a + b, IsSpace);
  }

  /** Generated identifiers carry no white space, so saving an edge does not rename its ends. */
  lemma {:induction false} GeneratedIdsAreClean(number: nat, lowered: string)
    ensures Strip(NodeId(number, lowered)) == NodeId(number, lowered)
    ensures Strip(EdgeId(number)) == EdgeId(number)
    ensures Strip(PlugId(number)) == PlugId(number)
  {
    SlugChars(lowered);
    Pad4Value(number);
    EndsClean("node-" + Pad4(number), "-" + Slug(lowered));
    EndsClean("edge-", Pad4(number));
    EndsClean("plug-", Pad4(number));
    assert NodeId(number, lowered) == ("node-" + Pad4(number)) + ("-" + Slug(lowered));
  }

  lemma {:induction false} DashEndsNumber(p: string, q: string, x: string, y: string)
    requires AllDigits(p) && |q| < |p|
    ensures p + "-" + x != q + "-" + y
  {
    assert (p + "-" + x)[|q|] == p[|q|];
    assert (q + "-" + y)[|q|] == '-';
  }

  /** Node ids are told apart by their number alone, whatever the operators are called. */
  lemma {:induction false} NodeIdInjective(a: nat, b: nat, x: string, y: string)
    ensures NodeId(a, x) == NodeId(b, y) ==> a == b
  {
    Pad4Value(a);
    Pad4Value(b);
    var p, q := Pad4(a), Pad4(b);
    assert NodeId(a, x)[5..] == p + "-" + Slug(x);
    assert NodeId(b, y)[5..] == q + "-" + Slug(y);
    if |p| < |q| {
      DashEndsNumber(q, p, Slug(y), Slug(x));
    } else if |q| < |p| {
      DashEndsNumber(p, q, Slug(x), Slug(y));
    } else {
      assert (p + "-" + Slug(x))[..|p|] == p && (q + "-" + Slug(y))[..|p|] == q;
      if p == q { Pad4Injective(a, b); }
    }
  }

  lemma {:induction false} NumberedIdInjective(a: nat, b: nat)
    ensures EdgeId(a) == EdgeId(b) ==> a == b
    ensures PlugId(a) == PlugId(b) ==> a == b
  {
    assert EdgeId(a)[5..] == Pad4(a) && EdgeId(b)[5..] == Pad4(b);
    assert PlugId(a)[5..] == Pad4(a) && PlugId(b)[5..] == Pad4(b);
    if Pad4(a) == Pad4(b) { Pad4Injective(a, b); }
  }

  // ---------------------------------------------------------------- the run invariant

  /** Later states only add: nodes keep their identity, bindings once set never change,
      plugs and edges are appended. */
  ghost predicate NodeGrew(a: Authored, b: Authored) {
    && a.id == b.id && a.catalog == b.catalog
    && (forall v :: v in a.bindings ==> v in b.bindings && b.bindings[v] == a.bindings[v])
    && a.plugs <= b.plugs
  }

  ghost predicate Extends(s: State, t: State) {
    && s.identity == t.identity && s.conversions == t.conversions
    && |s.nodes| <= |t.nodes|
    && (forall i :: 0 <= i < |s.nodes| ==> NodeGrew(s.nodes[i], t.nodes[i]))
    && s.edges <= t.edges
  }

  /** The edge runs from output `sp` of node `a` to input `tp` of node `b` along `types`. */
  ghost predicate Runs(conversions: seq<Conversion>, a: Authored, b: Authored, e: Edge, sp: string, tp: string, types: seq<TypeKey>) {
    && Strip(sp) == e.fromPort && Strip(tp) == e.toPort
    && var output := FindPort(a.catalog.outputs, sp);
    && var input := FindPort(b.catalog.inputs, tp);
    && output.Some? && input.Some?
    && FitShape(output.value, input.value, e.mapped).None?
    && (input.value.instancePlugs <==> e.toPlug.Some?)
    && TypePath(conversions, e.path, types)
    && Resolved(a, output.value) == Some(types[0])
    && Resolved(b, input.value) == Some(types[|e.path|])
  }

  lemma {:induction false} RunsSurvives(conversions: seq<Conversion>, a: Authored, b: Authored, a': Authored,
                                        b': Authored, e: Edge, sp: string, tp: string, types: seq<TypeKey>)
    requires Runs(conversions, a, b, e, sp, tp, types) && NodeGrew(a, a') && NodeGrew(b, b')
    ensures Runs(conversions, a', b', e, sp, tp, types)
  {
  }

  ghost predicate TypedAs(s: State, e: Edge, i: nat, j: nat, sp: string, tp: string, types: seq<TypeKey>) {
    && i < |s.nodes| && j < |s.nodes|
    && s.nodes[i].id == e.fromNode && s.nodes[j].id == e.toNode
    && Runs(s.conversions, s.nodes[i], s.nodes[j], e, sp, tp, types)
  }

  ghost predicate Typed(s: State, e: Edge) {
    exists i: nat, j: nat, sp: string, tp: string, types: seq<TypeKey> :: TypedAs(s, e, i, j, sp, tp, types)
  }

  ghost predicate EdgesTyped(s: State) {
    forall k :: 0 <= k < |s.edges| ==> Typed(s, s.edges[k])
  }

  ghost predicate IsNodeId(id: string, number: nat) {
    exists lowered :: id == NodeId(number, lowered)
  }

  /** Node, edge and per-node plug identifiers carry their position. */
  ghost predicate PlugsNumbered(plugs: seq<Plug>) {
    forall k :: 0 <= k < |plugs| ==> plugs[k].id == PlugId(k + 1)
  }

  ghost predicate NodesNumbered(nodes: seq<Authored>) {
    && (forall i :: 0 <= i < |nodes| ==> IsNodeId(nodes[i].id, i + 1))
    && (forall i :: 0 <= i < |nodes| ==> PlugsNumbered(nodes[i].plugs))
  }

  ghost predicate EdgesNumbered(edges: seq<Edge>) {
    forall k :: 0 <= k < |edges| ==> edges[k].id == EdgeId(k + 1)
  }

  ghost predicate Numbered(s: State) {
    NodesNumbered(s.nodes) && EdgesNumbered(s.edges)
  }

  /** Only declared variables are bound. */
  ghost predicate BindingsKnown(s: State) {
    forall i :: 0 <= i < |s.nodes| ==> s.nodes[i].bindings.Keys <= Variables(s.nodes[i].catalog)
  }

  ghost predicate NodesDistinct(nodes: seq<Authored>) {
    forall i, j :: 0 <= i < |nodes| && 0 <= j < |nodes| && nodes[i].id == nodes[j].id ==> i == j
  }

  ghost predicate HasPlug(node: Authored, id: string, port: string) {
    exists k :: 0 <= k < |node.plugs| && node.plugs[k] == Plug(id, port)
  }

  /** A plugged edge names a plug of its target node that serves the same port. */
  ghost predicate PlugsExist(s: State) {
    forall k, j :: 0 <= k < |s.edges| && 0 <= j < |s.nodes| && s.edges[k].toPlug.Some? && s.nodes[j].id == s.edges[k].toNode
      ==> HasPlug(s.nodes[j], s.edges[k].toPlug.value, s.edges[k].toPort)
  }

  ghost predicate SamePlug(a: Edge, b: Edge) {
    a.toNode == b.toNode && a.toPlug == b.toPlug
  }

  ghost predicate PlugsUsedOnce(s: State) {
    forall a, b :: 0 <= a < b < |s.edges| && s.edges[a].toPlug.Some? ==> !SamePlug(s.edges[a], s.edges[b])
  }

  /** An input that can get an edge: it is found under its name, accepts some shape, and
      its name fits a saved graph. */
  ghost predicate Live(inputs: seq<Port>, q: Port) {
    FindPort(inputs, q.name) == Some(q) && q.accepted != [] && FitsIdentifier(q.name)
  }

  /** Only the input called `name` itself is saved under that name. */
  ghost predicate SavedExactly(inputs: seq<Port>, name: string) {
    forall q :: q in inputs && Live(inputs, q) && Strip(q.name) == Strip(name) ==> q.name == name
  }

  ghost predicate SameInput(a: Edge, b: Edge) {
    a.toNode == b.toNode && a.toPort == b.toPort
  }

  /** Two edges meet on one input only if that input is variadic. The builder compares
      the stored, stripped port name with the requested one, so this is claimed for the
      inputs that are saved under their own name. */
  ghost predicate InputsUsedOnce(s: State) {
    forall a, b, j :: 0 <= a < b < |s.edges| && 0 <= j < |s.nodes|
        && s.nodes[j].id == s.edges[b].toNode && SavedExactly(s.nodes[j].catalog.inputs, s.edges[b].toPort)
        && SameInput(s.edges[a], s.edges[b])
      ==> InputIsVariadic(s.nodes[j], s.edges[b].toPort)
  }

  ghost predicate InputIsVariadic(node: Authored, port: string) {
    var input := FindPort(node.catalog.inputs, port);
    input.Some? && input.value.variadic && Live(node.catalog.inputs, input.value)
  }

  ghost predicate Inv(s: State) {
    && Numbered(s) && BindingsKnown(s) && EdgesTyped(s)
    && PlugsExist(s) && PlugsUsedOnce(s) && InputsUsedOnce(s)
  }

  // ---------------------------------------------------------------- consequences

  lemma {:induction false} NodeIdsDistinct(s: State)
    requires Numbered(s)
    ensures NodesDistinct(s.nodes)
  {
    forall i, j | 0 <= i < |s.nodes| && 0 <= j < |s.nodes| && s.nodes[i].id == s.nodes[j].id ensures i == j {
      assert IsNodeId(s.nodes[i].id, i + 1) && IsNodeId(s.nodes[j].id, j + 1);
      NodeNumbersDiffer(s.nodes[i].id, i + 1, j + 1);
    }
  }

  lemma {:induction false} NodeNumbersDiffer(id: string, a: nat, b: nat)
    requires IsNodeId(id, a) && IsNodeId(id, b)
    ensures a == b
  {
    var x :| id == NodeId(a, x);
    var y :| id == NodeId(b, y);
    NodeIdInjective(a, b, x, y);
  }

  lemma {:induction false} NodeIdsClean(s: State, i: nat)
    requires Numbered(s) && i < |s.nodes|
    ensures Strip(s.nodes[i].id) == s.nodes[i].id
  {
    assert IsNodeId(s.nodes[i].id, i + 1);
    NodeIdClean(s.nodes[i].id, i + 1);
  }

  lemma {:induction false} NodeIdClean(id: string, number: nat)
    requires IsNodeId(id, number)
    ensures Strip(id) == id
  {
    var x :| id == NodeId(number, x);
    GeneratedIdsAreClean(number, x);
  }

  ghost predicate FreshPlug(plugs: seq<Plug>, id: string) {
    forall k :: 0 <= k < |plugs| ==> plugs[k].id != id
  }

  /** The next plug number is not in use. */
  lemma {:induction false} NextPlugIsFresh(plugs: seq<Plug>)
    requires PlugsNumbered(plugs)
    ensures FreshPlug(plugs, PlugId(|plugs| + 1))
  {
    forall k | 0 <= k < |plugs| ensures plugs[k].id != PlugId(|plugs| + 1) {
      NumberedIdInjective(k + 1, |plugs| + 1);
    }
  }

  lemma {:induction false} ExtendsTransitive(s: State, t: State, u: State)
    requires Extends(s, t) && Extends(t, u)
    ensures Extends(s, u)
  {
    forall i | 0 <= i < |s.nodes| ensures NodeGrew(s.nodes[i], u.nodes[i]) {
      assert NodeGrew(s.nodes[i], t.nodes[i]) && NodeGrew(t.nodes[i], u.nodes[i]);
    }
  }

  lemma {:induction false} TypingSurvives(s: State, t: State, e: Edge)
    requires Extends(s, t) && Typed(s, e)
    ensures Typed(t, e)
  {
    var i: nat, j: nat, sp, tp, types :| TypedAs(s, e, i, j, sp, tp, types);
    RunsSurvives(s.conversions, s.nodes[i], s.nodes[j], t.nodes[i], t.nodes[j], e, sp, tp, types);
    assert TypedAs(t, e, i, j, sp, tp, types);
  }
}
