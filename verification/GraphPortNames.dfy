/** When an input takes at most one edge. Saved edges carry stripped port names, while the
    builder looks for an existing edge under the name it was asked for. So the rule fails
    for an input whose name has surrounding white space, and for an input that has a
    sibling whose name strips to its own. */
module GraphPortNames {
  import opened Text
  import opened Artifacts
  import opened GraphModel
  import opened GraphInvariants
  import opened GraphRuns

  ghost predicate Reachable(s: State) {
    exists identity, conversions, calls :: s == Run(Initial(identity, conversions), calls)
  }

  /** No node with these inputs has two saved edges under the name `saved`. */
  ghost predicate TakesOneEdge(s: State, inputs: seq<Port>, saved: string) {
    forall a, b, j :: 0 <= a < b < |s.edges| && 0 <= j < |s.nodes|
        && s.nodes[j].catalog.inputs == inputs && s.nodes[j].id == s.edges[b].toNode && s.edges[b].toPort == saved
      ==> !SameInput(s.edges[a], s.edges[b])
  }

  /** Every input that can be saved under `saved` is spelled that way and is not variadic. */
  ghost predicate OneSpelling(inputs: seq<Port>, saved: string) {
    forall q :: q in inputs && Live(inputs, q) && Strip(q.name) == saved ==> q.name == saved && !q.variadic
  }

  // ---------------------------------------------------------------- a family of bad runs

  /** The type that flows into `q`. */
  function Flow(q: Port): TypeKey { if q.typ.Fixed? then q.typ.key else TypeKey("t", 1) }

  function Output(q: Port): Port
    requires q.accepted != []
  {
    Port("p", Fixed(Flow(q)), q.accepted[0], [], false, false, false)
  }

  function Producer(q: Port): CatalogNode
    requires q.accepted != []
  {
    CatalogNode("a", 1, [], [Output(q)], true)
  }

  function Consumer(inputs: seq<Port>): CatalogNode { CatalogNode("b", 1, inputs, [], true) }

  function Join(x: string, y: string, q: Port): Link {
    Link(Handle(0, x, "p"), Handle(0, y, q.name), [], false)
  }

  /** The two nodes `x` and `y` after `n` joins at `q`. */
  ghost predicate Joined(s: State, x: string, y: string, inputs: seq<Port>, q: Port, n: nat)
    requires q.accepted != []
  {
    && s.identity == 0 && s.conversions == [] && |s.nodes| == 2
    && s.nodes[0] == Authored(x, Producer(q), map[], [])
    && s.nodes[1].id == y && s.nodes[1].catalog == Consumer(inputs)
    && (Resolved(s.nodes[1], q).Some? ==> Resolved(s.nodes[1], q).value == Flow(q))
    && |s.nodes[1].plugs| == (if q.instancePlugs then n else 0)
    && |s.edges| == n && forall k :: 0 <= k < n ==> s.edges[k].toNode == y && s.edges[k].toPort == Strip(q.name)
  }

  /** The identifiers of the joined nodes fit a saved graph. */
  ghost predicate IdsFit(x: string, y: string) { x != y && FitsIdentifier(x) && FitsIdentifier(y) && Strip(y) == y }

  ghost predicate NumberFits(number: nat) { FitsIdentifier(EdgeId(number)) && FitsIdentifier(PlugId(number)) }

  lemma {:induction false} JoinLocated(s: State, x: string, y: string, inputs: seq<Port>, q: Port, n: nat)
    requires x != y && Live(inputs, q) && Joined(s, x, y, inputs, q, n)
    ensures Locate(s, Join(x, y, q)) == Ok(Ends(0, 1, Output(q), q))
  {
    assert FindNode(s.nodes, x) == Some(0);
    assert FindNode(s.nodes[1..], y) == Some(0);
  }

  lemma {:induction false} FlowInfers(q: Port, target: Option<TypeKey>)
    requires target.Some? ==> target.value == Flow(q)
    ensures Infer([], Some(Flow(q)), target, []) == Ok(Types(Flow(q), Flow(q)))
  {
    assert Follow([], Flow(q), {Flow(q)}) == Ok(Flow(q));
  }

  lemma {:induction false} JoinFits(number: nat, x: string, y: string, q: Port, plug: Option<Plug>)
    requires IdsFit(x, y) && NumberFits(number) && FitsIdentifier(q.name) && (plug.Some? ==> plug.value.id == PlugId(number))
    ensures EdgeFits(number, Join(x, y, q), plug)
  {
    TrimFixesClean("p", IsSpace);
  }

  lemma {:induction false} JoinAccepted(s: State, x: string, y: string, inputs: seq<Port>, q: Port, n: nat)
    requires Live(inputs, q) && (q.variadic || Strip(q.name) != q.name)
    requires IdsFit(x, y) && NumberFits(n + 1) && Joined(s, x, y, inputs, q, n)
    ensures Accepts(s, Join(x, y, q), Ends(0, 1, Output(q), q), Types(Flow(q), Flow(q)))
  {
    JoinLocated(s, x, y, inputs, q, n);
    FlowInfers(q, Resolved(s.nodes[1], q));
    JoinFits(n + 1, x, y, q, NewPlug(s.nodes[1], q));
  }

  lemma {:induction false} JoinedAfter(s: State, x: string, y: string, inputs: seq<Port>, q: Port, n: nat)
    requires q.accepted != [] && Strip(y) == y && Joined(s, x, y, inputs, q, n)
    ensures Joined(After(s, Join(x, y, q), Ends(0, 1, Output(q), q), Types(Flow(q), Flow(q))), x, y, inputs, q, n + 1)
  {
    var t := After(s, Join(x, y, q), Ends(0, 1, Output(q), q), Types(Flow(q), Flow(q)));
    assert t.edges[..n] == s.edges && t.edges[n].toPort == Strip(q.name);
  }

  lemma {:induction false} NumbersFit(n: nat)
    requires 1 <= n <= 2
    ensures |Pad4(n)| == 4 && NumberFits(n)
  {
    GeneratedIdsAreClean(n, "");
    Pad4Value(n);
    assert |Pad4(n)| == 4 by {
      assert |Decimal(n)| == 1;
      ZerosValue(3, "");
    }
  }

  /** Joining goes through whatever is already saved. */
  lemma {:induction false} JoinStep(s: State, x: string, y: string, inputs: seq<Port>, q: Port, n: nat)
    requires Live(inputs, q) && (q.variadic || Strip(q.name) != q.name) && IdsFit(x, y) && NumberFits(n + 1)
    requires Joined(s, x, y, inputs, q, n)
    ensures Joined(Step(s, Connect(Join(x, y, q))), x, y, inputs, q, n + 1)
  {
    JoinAccepted(s, x, y, inputs, q, n);
    PartsConnect(s, Join(x, y, q), Ends(0, 1, Output(q), q), Types(Flow(q), Flow(q)));
    JoinedAfter(s, x, y, inputs, q, n);
  }

  /** Some run of a new builder leads to `n` joins. */
  ghost predicate Leads(x: string, y: string, inputs: seq<Port>, q: Port, n: nat)
    requires q.accepted != []
  {
    exists calls :: Joined(Run(Initial(0, []), calls), x, y, inputs, q, n)
  }

  lemma {:induction false} LeadsOn(x: string, y: string, inputs: seq<Port>, q: Port, n: nat)
    requires Live(inputs, q) && (q.variadic || Strip(q.name) != q.name) && IdsFit(x, y) && n <= 1 && Leads(x, y, inputs, q, n)
    ensures Leads(x, y, inputs, q, n + 1)
  {
    NumbersFit(n + 1);
    var calls :| Joined(Run(Initial(0, []), calls), x, y, inputs, q, n);
    JoinStep(Run(Initial(0, []), calls), x, y, inputs, q, n);
    RunOneMore(Initial(0, []), calls, Connect(Join(x, y, q)));
  }

  lemma {:induction false} TwoEdgesMeet(x: string, y: string, inputs: seq<Port>, q: Port)
    requires q.accepted != [] && Leads(x, y, inputs, q, 2)
    ensures exists s :: Reachable(s) && !TakesOneEdge(s, inputs, Strip(q.name))
  {
    var calls :| Joined(Run(Initial(0, []), calls), x, y, inputs, q, 2);
    var s := Run(Initial(0, []), calls);
    assert Reachable(s);
    assert s.nodes[1].id == s.edges[1].toNode && SameInput(s.edges[0], s.edges[1]);
  }

  lemma {:induction false} AddStep(s: State, catalog: CatalogNode, lowered: string)
    requires catalog.runnable
    ensures Step(s, Add(Addition(catalog, lowered, map[])))
         == s.(nodes := s.nodes + [Authored(NodeId(|s.nodes| + 1, lowered), catalog, map[], [])])
  {
  }

  lemma {:induction false} RunTwo(s: State, c: Call, d: Call, t: State, u: State)
    requires Step(s, c) == t && Step(t, d) == u
    ensures Run(s, [c] + [d]) == u
  {
    RunOneMore(s, [], c);
    assert [] + [c] == [c];
    RunOneMore(s, [c], d);
  }

  lemma {:induction false} NodesAdded(inputs: seq<Port>, q: Port, a: string, b: string)
    requires q.accepted != []
    ensures Leads(NodeId(1, a), NodeId(2, b), inputs, q, 0)
  {
    var first, second := Add(Addition(Producer(q), a, map[])), Add(Addition(Consumer(inputs), b, map[]));
    var x, y := Authored(NodeId(1, a), Producer(q), map[], []), Authored(NodeId(2, b), Consumer(inputs), map[], []);
    AddStep(Initial(0, []), Producer(q), a);
    assert [] + [x] == [x];
    AddStep(State(0, [], [x], []), Consumer(inputs), b);
    RunTwo(Initial(0, []), first, second, State(0, [], [x], []), State(0, [], [x] + [y], []));
    assert Joined(Run(Initial(0, []), [first] + [second]), NodeId(1, a), NodeId(2, b), inputs, q, 0);
  }

  lemma {:induction false} LetterSlugs()
    ensures Slug("a") == "a" && Slug("b") == "b"
  {
    assert "a"[1..] == "" && "b"[1..] == "";
    assert Dashed("", false) == "";
    assert Dashed("a", false) == "a";
    assert Dashed("b", false) == "b";
  }

  lemma {:induction false} TwoIdsFit() returns (a: string, b: string)
    ensures IdsFit(NodeId(1, a), NodeId(2, b))
  {
    a, b := "a", "b";
    NodeIdInjective(1, 2, a, b);
    GeneratedIdsAreClean(1, a);
    GeneratedIdsAreClean(2, b);
    LetterSlugs();
    NumbersFit(1);
    NumbersFit(2);
  }

  lemma {:induction false} TwoNodesReady(inputs: seq<Port>, q: Port) returns (x: string, y: string)
    requires q.accepted != []
    ensures IdsFit(x, y) && Leads(x, y, inputs, q, 0)
  {
    var a, b := TwoIdsFit();
    x, y := NodeId(1, a), NodeId(2, b);
    NodesAdded(inputs, q, a, b);
  }

  /** An input that is variadic or whose name has surrounding white space gets two edges in
      some run. */
  lemma {:induction false} BadInputTakesTwoEdges(inputs: seq<Port>, q: Port)
    requires q in inputs && Live(inputs, q) && (q.variadic || Strip(q.name) != q.name)
    ensures exists s :: Reachable(s) && !TakesOneEdge(s, inputs, Strip(q.name))
  {
    var x, y := TwoNodesReady(inputs, q);
    LeadsOn(x, y, inputs, q, 0);
    LeadsOn(x, y, inputs, q, 1);
    TwoEdgesMeet(x, y, inputs, q);
  }

  // ---------------------------------------------------------------- the exact condition

  lemma {:induction false} OneSpellingTakesOneEdge(s: State, inputs: seq<Port>, name: string)
    requires Inv(s) && OneSpelling(inputs, Strip(name))
    ensures TakesOneEdge(s, inputs, Strip(name))
  {
    TrimFixesClean(name, IsSpace);
    forall a, b, j | 0 <= a < b < |s.edges| && 0 <= j < |s.nodes|
        && s.nodes[j].catalog.inputs == inputs && s.nodes[j].id == s.edges[b].toNode && s.edges[b].toPort == Strip(name)
      ensures !SameInput(s.edges[a], s.edges[b])
    {
      assert SavedExactly(inputs, Strip(name));
      assert !InputIsVariadic(s.nodes[j], Strip(name));
    }
  }

  lemma {:induction false} ReachableInv(s: State)
    requires Reachable(s)
    ensures Inv(s)
  {
    var identity, conversions, calls :| s == Run(Initial(identity, conversions), calls);
    RunKeeps(Initial(identity, conversions), calls);
  }

  /** In every run every node with these inputs has at most one saved edge under a name
      exactly when the inputs that can be saved under it are spelled so and not variadic. */
  lemma {:induction false} OneEdgeRuleIff(inputs: seq<Port>, name: string)
    ensures (forall s :: Reachable(s) ==> TakesOneEdge(s, inputs, Strip(name))) <==> OneSpelling(inputs, Strip(name))
  {
    if OneSpelling(inputs, Strip(name)) {
      forall s | Reachable(s) ensures TakesOneEdge(s, inputs, Strip(name)) {
        ReachableInv(s);
        OneSpellingTakesOneEdge(s, inputs, name);
      }
    } else {
      var q :| q in inputs && Live(inputs, q) && Strip(q.name) == Strip(name) && !(q.name == Strip(name) && !q.variadic);
      BadInputTakesTwoEdges(inputs, q);
    }
  }
}
