/** Field projections of an artifact type (libs/core/src/grafy_core/plugins.py:939-1087): a
    work list walks the payload schema through `properties` and local references. */
module Projections {
  import opened Text
  import opened Artifacts
  import opened Json
  import opened Ordering
  import P = JsonPointer

  type Path = seq<string>

  datatype Projection = Projection(path: Path, target: TypeKey, title: string)

  /** Everything one expansion reads. `materialized` gives, for every known artifact type,
      the JSON type it stores; `humanize` turns a schema key into a title. */
  datatype Context = Context(
    root: Fields, declared: seq<Projection>, scalars: map<string, TypeKey>,
    materialized: map<TypeKey, Option<string>>, derive: bool, humanize: string -> string)

  datatype ExpandError = TooDeep | CyclicRef | BadRef | MissingTarget | TypeMismatch | TooMany

  const MAX_DEPTH := 32
  const MAX_PROJECTIONS := 1024

  // ---------------------------------------------------------------- reading one schema

  function TextAt(schema: Fields, key: string): Option<string> {
    if key in schema && schema[key].Text? then Some(schema[key].text) else None
  }

  function TitleOf(schema: Fields): Option<string> {
    var title := TextAt(schema, "title");
    if title.Some? && Trim(title.value, IsPythonSpace) != "" then Some(Trim(title.value, IsPythonSpace)) else None
  }

  /** A mapping from paths keeps the last declaration of a path. */
  function Declared(declared: seq<Projection>, path: Path): (r: Option<Projection>)
    ensures r.Some? ==> r.value in declared && r.value.path == path
    ensures r.None? <==> forall p :: p in declared ==> p.path != path
  {
    if declared == [] then None
    else
      var last := declared[|declared| - 1];
      assert forall p :: p in declared <==> p == last || p in declared[..|declared| - 1];
      if last.path == path then Some(last) else Declared(declared[..|declared| - 1], path)
  }

  predicate IsScalar(name: string) { name == "string" || name == "integer" }

  predicate IsKnownType(name: string) {
    name in {"array", "boolean", "integer", "null", "number", "object", "string"}
  }

  function Joined(titles: seq<string>): string {
    if titles == [] then "" else if |titles| == 1 then titles[0] else titles[0] + " · " + Joined(titles[1..])
  }

  // ---------------------------------------------------------------- names in order

  predicate IsLeast(keys: set<string>, k: string) {
    k in keys && forall j :: j in keys ==> StringLe(k, j)
  }

  lemma {:induction false} LeastExists(keys: set<string>)
    requires keys != {}
    ensures exists k :: IsLeast(keys, k)
  {
    StringAndPathOrders();
    var x :| x in keys;
    var rest := keys - {x};
    if rest == {} {
      assert keys == {x};
      assert IsLeast(keys, x);
    } else {
      LeastExists(rest);
      var y :| IsLeast(rest, y);
      assert keys == rest + {x};
      assert IsLeast(keys, if StringLe(x, y) then x else y);
    }
  }

  lemma {:induction false} LeastUnique(keys: set<string>)
    ensures forall a, b :: IsLeast(keys, a) && IsLeast(keys, b) ==> a == b
  {
    StringAndPathOrders();
    forall a, b | IsLeast(keys, a) && IsLeast(keys, b) ensures a == b {
      assert StringLe(a, b) && StringLe(b, a);
    }
  }

  /** The keys of an object in ascending order. */
  function SortedNames(keys: set<string>): seq<string>
    decreases |keys|
  {
    if keys == {} then []
    else
      LeastExists(keys);
      LeastUnique(keys);
      var k :| IsLeast(keys, k);
      [k] + SortedNames(keys - {k})
  }

  lemma {:induction false} SortedNamesMembers(keys: set<string>, k: string)
    ensures k in SortedNames(keys) <==> k in keys
    decreases |keys|
  {
    if keys != {} {
      var first := SortedNames(keys)[0];
      LeastExists(keys);
      assert first in keys;
      SortedNamesMembers(keys - {first}, k);
      LeastUnique(keys);
    }
  }

  lemma {:induction false} SortedNamesInOrder(keys: set<string>)
    ensures Ascending(SortedNames(keys), StringLe)
    ensures forall i, j :: 0 <= i < j < |SortedNames(keys)| ==> SortedNames(keys)[i] != SortedNames(keys)[j]
    decreases |keys|
  {
    if keys != {} {
      LeastExists(keys);
      LeastUnique(keys);
      var k :| IsLeast(keys, k);
      var rest := SortedNames(keys - {k});
      assert SortedNames(keys) == [k] + rest;
      SortedNamesInOrder(keys - {k});
      forall x | x in rest ensures x in keys - {k} { SortedNamesMembers(keys - {k}, x); }
      ConsAscending(k, rest, StringLe);
    }
  }

  // ---------------------------------------------------------------- the walk

  /** One element of the work list. */
  datatype Entry = Entry(schema: Fields, path: Path, titles: seq<string>, refs: set<string>, depth: nat)

  datatype Chased = Chased(schema: Fields, title: Option<string>, refs: set<string>, depth: nat)

  /** Follows a chain of local references. A foreign reference is an empty schema. */
  function Chase(root: Fields, schema: Fields, title: Option<string>, refs: set<string>, depth: nat): (r: Result<Chased, ExpandError>)
    requires depth <= MAX_DEPTH
    ensures r.Ok? ==> depth <= r.value.depth <= MAX_DEPTH
    decreases MAX_DEPTH - depth
  {
    var ref := TextAt(schema, "$ref");
    if ref.None? then Ok(Chased(schema, title, refs, depth))
    else if !P.IsLocal(ref.value) then Ok(Chased(map[], title, refs, depth))
    else if ref.value in refs then Err(CyclicRef)
    else if depth + 1 > MAX_DEPTH then Err(TooDeep)
    else
      var target := P.LocalRef(root, ref.value);
      if target.Err? then Err(BadRef)
      else Chase(root, target.value, if title.None? then TitleOf(target.value) else title, refs + {ref.value}, depth + 1)
  }

  /** Members that are schema objects, in the given order of names. */
  function Members(properties: Fields, names: seq<string>, path: Path, titles: seq<string>, refs: set<string>, depth: nat): seq<Entry>
  {
    if names == [] then []
    else
      (if names[0] in properties && properties[names[0]].Object?
          then [Entry(properties[names[0]].fields, path + [names[0]], titles, refs, depth)] else [])
      + Members(properties, names[1..], path, titles, refs, depth)
  }

  function Properties(schema: Fields): Fields {
    if "properties" in schema && schema["properties"].Object? then schema["properties"].fields else map[]
  }

  /** What one entry contributes: at most one projection, or the members to visit next. */
  datatype Visited = Visited(derived: seq<Projection>, members: seq<Entry>)

  function Mismatch(ctx: Context, path: Path, name: Option<string>): Option<ExpandError> {
    var declared := Declared(ctx.declared, path);
    if declared.Some? && name.Some? && IsKnownType(name.value) then
      if declared.value.target !in ctx.materialized then Some(MissingTarget)
      else
        var stored := ctx.materialized[declared.value.target];
        if stored.Some? && stored.value != name.value then Some(TypeMismatch) else None
    else None
  }

  /** The projection a scalar leaf adds, if any. */
  function Derives(ctx: Context, path: Path, name: string, titles: seq<string>): seq<Projection> {
    if Declared(ctx.declared, path).None? && ctx.derive && path != [] && name in ctx.scalars
    then [Projection(path, ctx.scalars[name], Joined(titles))]
    else []
  }

  /** The titles down to an entry: its own, or one made from its key. */
  function TitlesOf(ctx: Context, e: Entry, title: Option<string>): seq<string> {
    if e.path == [] then e.titles
    else e.titles + [if title.Some? then title.value else ctx.humanize(e.path[|e.path| - 1])]
  }

  function Visit(ctx: Context, e: Entry): Result<Visited, ExpandError>
    requires e.depth <= MAX_DEPTH
  {
    var chased := Chase(ctx.root, e.schema, TitleOf(e.schema), e.refs, e.depth);
    if chased.Err? then Err(chased.error)
    else
      var schema := chased.value.schema;
      var titles := TitlesOf(ctx, e, chased.value.title);
      var name := TextAt(schema, "type");
      var mismatch := Mismatch(ctx, e.path, name);
      if mismatch.Some? then Err(mismatch.value)
      else if name.Some? && IsScalar(name.value) then Ok(Visited(Derives(ctx, e.path, name.value, titles), []))
      else if name == Some("array") then Ok(Visited([], []))
      else
        var properties := Properties(schema);
        Ok(Visited([], Members(properties, SortedNames(properties.Keys), e.path, titles, chased.value.refs, chased.value.depth + 1)))
  }

  lemma {:induction false} MembersDepth(properties: Fields, names: seq<string>, path: Path, titles: seq<string>,
                                        refs: set<string>, depth: nat)
    ensures forall m :: m in Members(properties, names, path, titles, refs, depth) ==> m.depth == depth
  {
    if names != [] { MembersDepth(properties, names[1..], path, titles, refs, depth); }
  }

  /** How many more levels the walk may go below an entry. */
  function Level(e: Entry): nat { if e.depth > MAX_DEPTH then 0 else MAX_DEPTH + 1 - e.depth }

  ghost predicate Below(entries: seq<Entry>, level: nat) {
    forall e :: e in entries ==> Level(e) <= level
  }

  lemma {:induction false} VisitDescends(ctx: Context, e: Entry)
    requires e.depth <= MAX_DEPTH && Visit(ctx, e).Ok?
    ensures Below(Visit(ctx, e).value.members, Level(e) - 1)
  {
    var chased := Chase(ctx.root, e.schema, TitleOf(e.schema), e.refs, e.depth).value;
    var properties := Properties(chased.schema);
    MembersDepth(properties, SortedNames(properties.Keys), e.path, TitlesOf(ctx, e, chased.title), chased.refs, chased.depth + 1);
  }

  // ---------------------------------------------------------------- the recursive specification

  /** Everything derived at or below an entry. */
  ghost function Expand(ctx: Context, e: Entry): Result<seq<Projection>, ExpandError>
    decreases Level(e), 0
  {
    if e.depth > MAX_DEPTH then Err(TooDeep)
    else
      var visited := Visit(ctx, e);
      if visited.Err? then Err(visited.error)
      else
        VisitDescends(ctx, e);
        var below := ExpandAll(ctx, visited.value.members, Level(e) - 1);
        if below.Err? then below else Ok(visited.value.derived + below.value)
  }

  ghost function ExpandAll(ctx: Context, entries: seq<Entry>, level: nat): Result<seq<Projection>, ExpandError>
    requires Below(entries, level)
    decreases level, |entries|
  {
    if entries == [] then Ok([])
    else
      var first := Expand(ctx, entries[0]);
      if first.Err? then first
      else
        var rest := ExpandAll(ctx, entries[1..], level);
        if rest.Err? then rest else Ok(first.value + rest.value)
  }

  /** How many projections the walk below an entry derives before it first fails. */
  ghost function Reached(ctx: Context, e: Entry): nat
    decreases Level(e), 0
  {
    if e.depth > MAX_DEPTH || Visit(ctx, e).Err? then 0
    else
      VisitDescends(ctx, e);
      |Visit(ctx, e).value.derived| + ReachedAll(ctx, Visit(ctx, e).value.members, Level(e) - 1)
  }

  ghost function ReachedAll(ctx: Context, entries: seq<Entry>, level: nat): nat
    requires Below(entries, level)
    decreases level, |entries|
  {
    if entries == [] then 0
    else Reached(ctx, entries[0]) + if Expand(ctx, entries[0]).Err? then 0 else ReachedAll(ctx, entries[1..], level)
  }

  /** The number of entries the walk visits; finite on every schema. */
  ghost function Work(ctx: Context, e: Entry): nat
    decreases Level(e), 0
  {
    if e.depth > MAX_DEPTH || Visit(ctx, e).Err? then 1
    else
      VisitDescends(ctx, e);
      1 + WorkAll(ctx, Visit(ctx, e).value.members, Level(e) - 1)
  }

  ghost function WorkAll(ctx: Context, entries: seq<Entry>, level: nat): nat
    requires Below(entries, level)
    decreases level, |entries|
  {
    if entries == [] then 0 else Work(ctx, entries[0]) + WorkAll(ctx, entries[1..], level)
  }

  ghost function Combine(a: Result<seq<Projection>, ExpandError>,
                         b: Result<seq<Projection>, ExpandError>): Result<seq<Projection>, ExpandError> {
    if a.Err? then a else if b.Err? then b else Ok(a.value + b.value)
  }

  lemma {:induction false} LevelIrrelevant(ctx: Context, entries: seq<Entry>, a: nat, b: nat)
    requires Below(entries, a) && Below(entries, b)
    ensures ExpandAll(ctx, entries, a) == ExpandAll(ctx, entries, b) && WorkAll(ctx, entries, a) == WorkAll(ctx, entries, b)
    decreases |entries|
  {
    if entries != [] { LevelIrrelevant(ctx, entries[1..], a, b); }
  }

  lemma {:induction false} ExpandConcat(ctx: Context, a: seq<Entry>, b: seq<Entry>, level: nat)
    requires Below(a, level) && Below(b, level) && Below(a + b, level)
    ensures ExpandAll(ctx, a + b, level) == Combine(ExpandAll(ctx, a, level), ExpandAll(ctx, b, level))
    ensures WorkAll(ctx, a + b, level) == WorkAll(ctx, a, level) + WorkAll(ctx, b, level)
    decreases |a|
  {
    if a == [] {
      assert a + b == b;
      if ExpandAll(ctx, b, level).Ok? { assert [] + ExpandAll(ctx, b, level).value == ExpandAll(ctx, b, level).value; }
    } else {
      assert (a + b)[1..] == a[1..] + b;
      ExpandConcat(ctx, a[1..], b, level);
      var first, mid, last := Expand(ctx, a[0]), ExpandAll(ctx, a[1..], level), ExpandAll(ctx, b, level);
      if first.Ok? && mid.Ok? && last.Ok? { assert first.value + (mid.value + last.value) == (first.value + mid.value) + last.value; }
    }
  }

  function Root(ctx: Context): Entry { Entry(ctx.root, [], [], {}, 0) }

  /** The whole result: declared and derived projections, sorted by path. */
  ghost function Expanded(ctx: Context): Result<seq<Projection>, ExpandError> {
    var derived := Expand(ctx, Root(ctx));
    if derived.Err? then Err(derived.error)
    else if |ctx.declared| + |derived.value| > MAX_PROJECTIONS then Err(TooMany)
    else Ok(Sort(ctx.declared + derived.value, ByPath))
  }

  predicate ByPath(a: Projection, b: Projection) { PathLe(a.path, b.path) }

  const TOP: nat := MAX_DEPTH + 1

  /** What is derived in the end, given what is derived and listed so far. */
  ghost function Outcome(ctx: Context, derived: seq<Projection>, stack: seq<Entry>): Result<seq<Projection>, ExpandError>
    requires Below(stack, TOP)
  {
    Combine(Ok(derived), ExpandAll(ctx, stack, TOP))
  }

  /** The entry and its members, in terms of the members alone. */
  lemma {:induction false} ExpandVisited(ctx: Context, e: Entry, v: Visited)
    requires e.depth <= MAX_DEPTH && Visit(ctx, e) == Ok(v)
    ensures Below(v.members, TOP)
    ensures Expand(ctx, e) == Combine(Ok(v.derived), ExpandAll(ctx, v.members, TOP))
    ensures Work(ctx, e) == 1 + WorkAll(ctx, v.members, TOP)
  {
    VisitDescends(ctx, e);
    LevelIrrelevant(ctx, v.members, Level(e) - 1, TOP);
  }

  lemma {:induction false} FirstThenRest(ctx: Context, e: Entry, rest: seq<Entry>)
    ensures ExpandAll(ctx, [e] + rest, TOP) == Combine(Expand(ctx, e), ExpandAll(ctx, rest, TOP))
    ensures WorkAll(ctx, [e] + rest, TOP) == Work(ctx, e) + WorkAll(ctx, rest, TOP)
  {
    assert ([e] + rest)[1..] == rest;
  }

  /** What is left to do once the head of the work list has been visited. */
  lemma {:induction false} VisitStep(ctx: Context, e: Entry, v: Visited, rest: seq<Entry>, derived: seq<Projection>)
    requires e.depth <= MAX_DEPTH && Visit(ctx, e) == Ok(v)
    ensures Outcome(ctx, derived, [e] + rest) == Outcome(ctx, derived + v.derived, v.members + rest)
    ensures WorkAll(ctx, v.members + rest, TOP) < WorkAll(ctx, [e] + rest, TOP)
  {
    ExpandVisited(ctx, e, v);
    FirstThenRest(ctx, e, rest);
    ExpandConcat(ctx, v.members, rest, TOP);
    MembersFirst(derived, v.derived, ExpandAll(ctx, v.members, TOP), ExpandAll(ctx, rest, TOP));
  }

  lemma {:induction false} MembersFirst(a: seq<Projection>, b: seq<Projection>, x: Result<seq<Projection>, ExpandError>,
                                        y: Result<seq<Projection>, ExpandError>)
    ensures Combine(Ok(a), Combine(Combine(Ok(b), x), y)) == Combine(Ok(a + b), Combine(x, y))
  {
    if x.Ok? && y.Ok? {
      assert a + ((b + x.value) + y.value) == (a + b) + (x.value + y.value);
    }
  }

  /** An entry that cannot be visited decides the outcome. */
  lemma {:induction false} VisitFails(ctx: Context, e: Entry, rest: seq<Entry>, derived: seq<Projection>)
    requires e.depth > MAX_DEPTH || Visit(ctx, e).Err?
    ensures Outcome(ctx, derived, [e] + rest) == Err(if e.depth > MAX_DEPTH then TooDeep else Visit(ctx, e).error)
  {
    FirstThenRest(ctx, e, rest);
  }

  // ---------------------------------------------------------------- which error comes first

  /** The error of a failing expansion: the first schema that cannot be visited decides,
      unless more projections than allowed are derived before it is reached. */
  ghost function FirstError(ctx: Context): ExpandError {
    var whole, n := Expand(ctx, Root(ctx)), Reached(ctx, Root(ctx));
    if whole.Ok? || (n > 0 && |ctx.declared| + n > MAX_PROJECTIONS) then TooMany else whole.error
  }

  lemma {:induction false} ReachedAnyLevel(ctx: Context, entries: seq<Entry>, a: nat, b: nat)
    requires Below(entries, a) && Below(entries, b)
    ensures ReachedAll(ctx, entries, a) == ReachedAll(ctx, entries, b)
    decreases |entries|
  {
    if entries != [] { ReachedAnyLevel(ctx, entries[1..], a, b); }
  }

  lemma {:induction false} ReachedBelow(ctx: Context, e: Entry, v: Visited, level: nat)
    requires e.depth <= MAX_DEPTH && Visit(ctx, e) == Ok(v) && level == Level(e) - 1 && Below(v.members, level)
    ensures Reached(ctx, e) == |v.derived| + ReachedAll(ctx, v.members, level)
  {
  }

  lemma {:induction false} ReachedVisited(ctx: Context, e: Entry, v: Visited)
    requires e.depth <= MAX_DEPTH && Visit(ctx, e) == Ok(v) && Below(v.members, TOP)
    ensures Reached(ctx, e) == |v.derived| + ReachedAll(ctx, v.members, TOP)
  {
    VisitDescends(ctx, e);
    ReachedBelow(ctx, e, v, Level(e) - 1);
    ReachedAnyLevel(ctx, v.members, Level(e) - 1, TOP);
  }

  lemma {:induction false} ReachedFirst(ctx: Context, e: Entry, rest: seq<Entry>)
    ensures ReachedAll(ctx, [e] + rest, TOP) == Reached(ctx, e) + if Expand(ctx, e).Err? then 0 else ReachedAll(ctx, rest, TOP)
  {
    assert ([e] + rest)[1..] == rest;
  }

  lemma {:induction false} ReachedConcat(ctx: Context, a: seq<Entry>, b: seq<Entry>, level: nat)
    requires Below(a, level) && Below(b, level) && Below(a + b, level)
    ensures ReachedAll(ctx, a + b, level)
         == ReachedAll(ctx, a, level) + if ExpandAll(ctx, a, level).Err? then 0 else ReachedAll(ctx, b, level)
    decreases |a|
  {
    if a == [] {
      assert a + b == b;
    } else {
      assert (a + b)[1..] == a[1..] + b;
      ReachedConcat(ctx, a[1..], b, level);
    }
  }

  /** A visit takes its projections off what is still to be reached. */
  lemma {:induction false} ReachedStep(ctx: Context, e: Entry, v: Visited, rest: seq<Entry>)
    requires e.depth <= MAX_DEPTH && Visit(ctx, e) == Ok(v)
    ensures ReachedAll(ctx, [e] + rest, TOP) == |v.derived| + ReachedAll(ctx, v.members + rest, TOP)
  {
    ExpandVisited(ctx, e, v);
    ReachedVisited(ctx, e, v);
    ReachedFirst(ctx, e, rest);
    ReachedConcat(ctx, v.members, rest, TOP);
  }

  lemma {:induction false} ReachedNothing(ctx: Context, e: Entry, rest: seq<Entry>)
    requires e.depth > MAX_DEPTH || Visit(ctx, e).Err?
    ensures ReachedAll(ctx, [e] + rest, TOP) == 0
  {
    ReachedFirst(ctx, e, rest);
  }

  /** An expansion that goes through reaches everything it derives. */
  lemma {:induction false} ReachedWhole(ctx: Context, e: Entry)
    requires Expand(ctx, e).Ok?
    ensures Reached(ctx, e) == |Expand(ctx, e).value|
    decreases Level(e), 0
  {
    VisitDescends(ctx, e);
    ReachedWholeAll(ctx, Visit(ctx, e).value.members, Level(e) - 1);
  }

  lemma {:induction false} ReachedWholeAll(ctx: Context, entries: seq<Entry>, level: nat)
    requires Below(entries, level) && ExpandAll(ctx, entries, level).Ok?
    ensures ReachedAll(ctx, entries, level) == |ExpandAll(ctx, entries, level).value|
    decreases level, |entries|
  {
    if entries != [] {
      ReachedWhole(ctx, entries[0]);
      ReachedWholeAll(ctx, entries[1..], level);
    }
  }

  lemma {:induction false} ChaseStep(root: Fields, schema: Fields, title: Option<string>, refs: set<string>, depth: nat,
                                     ref: string, target: Fields)
    requires depth + 1 <= MAX_DEPTH && TextAt(schema, "$ref") == Some(ref) && P.IsLocal(ref) && ref !in refs
    requires P.LocalRef(root, ref) == Ok(target)
    ensures Chase(root, schema, title, refs, depth)
         == Chase(root, target, if title.None? then TitleOf(target) else title, refs + {ref}, depth + 1)
  {
  }

  method ChaseRefs(root: Fields, schema: Fields, title: Option<string>, refs: set<string>, depth: nat)
    returns (r: Result<Chased, ExpandError>)
    requires depth <= MAX_DEPTH
    ensures r == Chase(root, schema, title, refs, depth)
  {
    var resolved, rawTitle, branchRefs, resolvedDepth := schema, title, refs, depth;
    while true
      invariant resolvedDepth <= MAX_DEPTH
      invariant Chase(root, resolved, rawTitle, branchRefs, resolvedDepth) == Chase(root, schema, title, refs, depth)
      decreases MAX_DEPTH - resolvedDepth
    {
      var ref := TextAt(resolved, "$ref");
      if ref.None? {
        break;
      }
      if !P.IsLocal(ref.value) {
        return Ok(Chased(map[], rawTitle, branchRefs, resolvedDepth));
      }
      if ref.value in branchRefs {
        return Err(CyclicRef);
      }
      if resolvedDepth + 1 > MAX_DEPTH {
        return Err(TooDeep);
      }
      var target := P.ResolveLocalRef(root, ref.value);
      if target.Err? {
        return Err(BadRef);
      }
      ChaseStep(root, resolved, rawTitle, branchRefs, resolvedDepth, ref.value, target.value);
      resolved, branchRefs, resolvedDepth := target.value, branchRefs + {ref.value}, resolvedDepth + 1;
      if rawTitle.None? {
        rawTitle := TitleOf(resolved);
      }
    }
    return Ok(Chased(resolved, rawTitle, branchRefs, resolvedDepth));
  }

  /** Pushes in reverse, so that the first name ends on top. */
  method PushMembers(properties: Fields, names: seq<string>, path: Path, titles: seq<string>, refs: set<string>,
                     depth: nat, below: seq<Entry>)
    returns (stack: seq<Entry>)
    ensures stack == Members(properties, names, path, titles, refs, depth) + below
  {
    stack := below;
    for i := |names| downto 0
      invariant stack == Members(properties, names[i..], path, titles, refs, depth) + below
    {
      assert names[i..][1..] == names[i + 1..];
      if names[i] in properties && properties[names[i]].Object? {
        stack := [Entry(properties[names[i]].fields, path + [names[i]], titles, refs, depth)] + stack;
      }
    }
    assert names[0..] == names;
  }

  /** One turn of the work list, up to the count check. */
  method VisitEntry(ctx: Context, e: Entry, below: seq<Entry>) returns (r: Result<Visited, ExpandError>)
    requires e.depth <= MAX_DEPTH
    ensures r.Err? <==> Visit(ctx, e).Err?
    ensures r.Err? ==> r.error == Visit(ctx, e).error
    ensures r.Ok? ==> r.value.derived == Visit(ctx, e).value.derived && r.value.members == Visit(ctx, e).value.members + below
  {
    var chased := ChaseRefs(ctx.root, e.schema, TitleOf(e.schema), e.refs, e.depth);
    if chased.Err? {
      return Err(chased.error);
    }
    var schema := chased.value.schema;
    var titles := TitlesOf(ctx, e, chased.value.title);
    var name := TextAt(schema, "type");
    var mismatch := Mismatch(ctx, e.path, name);
    if mismatch.Some? {
      return Err(mismatch.value);
    }
    if name.Some? && IsScalar(name.value) {
      return Ok(Visited(Derives(ctx, e.path, name.value, titles), below));
    }
    if name == Some("array") {
      return Ok(Visited([], below));
    }
    var properties := Properties(schema);
    var stack := PushMembers(properties, SortedNames(properties.Keys), e.path, titles, chased.value.refs, chased.value.depth + 1, below);
    return Ok(Visited([], stack));
  }

  /** The work list is on its way to the outcome: what it has derived, and what it will. */
  ghost predicate Underway(ctx: Context, derived: seq<Projection>, stack: seq<Entry>) {
    && Outcome(ctx, derived, stack) == Expand(ctx, Root(ctx))
    && |derived| + ReachedAll(ctx, stack, TOP) == Reached(ctx, Root(ctx))
    && (derived != [] ==> |ctx.declared| + |derived| <= MAX_PROJECTIONS)
  }

  lemma {:induction false} StartsWhole(ctx: Context)
    ensures Underway(ctx, [], [Root(ctx)])
  {
    var whole := Expand(ctx, Root(ctx));
    assert [Root(ctx)] + [] == [Root(ctx)];
    FirstThenRest(ctx, Root(ctx), []);
    ReachedFirst(ctx, Root(ctx), []);
    if whole.Ok? { assert [] + (whole.value + []) == whole.value; }
  }

  /** A visit within the limit keeps the work list on its way. */
  lemma {:induction false} StaysUnderway(ctx: Context, e: Entry, v: Visited, rest: seq<Entry>, derived: seq<Projection>)
    requires Underway(ctx, derived, [e] + rest) && e.depth <= MAX_DEPTH && Visit(ctx, e) == Ok(v)
    requires v.derived != [] ==> |ctx.declared| + |derived + v.derived| <= MAX_PROJECTIONS
    ensures Underway(ctx, derived + v.derived, v.members + rest)
  {
    VisitStep(ctx, e, v, rest, derived);
    ReachedStep(ctx, e, v, rest);
  }

  /** A visit beyond the limit settles the outcome, whatever is left. */
  lemma {:induction false} BecomesTooMany(ctx: Context, e: Entry, v: Visited, rest: seq<Entry>, derived: seq<Projection>)
    requires Underway(ctx, derived, [e] + rest) && e.depth <= MAX_DEPTH && Visit(ctx, e) == Ok(v)
    requires v.derived != [] && |ctx.declared| + |derived + v.derived| > MAX_PROJECTIONS
    ensures Expanded(ctx).Err? && FirstError(ctx) == TooMany
  {
    VisitStep(ctx, e, v, rest, derived);
    ReachedStep(ctx, e, v, rest);
  }

  /** So does a visit that fails. */
  lemma {:induction false} FailsHere(ctx: Context, e: Entry, rest: seq<Entry>, derived: seq<Projection>)
    requires Underway(ctx, derived, [e] + rest) && (e.depth > MAX_DEPTH || Visit(ctx, e).Err?)
    ensures Expanded(ctx).Err? && FirstError(ctx) == if e.depth > MAX_DEPTH then TooDeep else Visit(ctx, e).error
  {
    VisitFails(ctx, e, rest, derived);
    ReachedNothing(ctx, e, rest);
  }

  lemma {:induction false} Finished(ctx: Context, derived: seq<Projection>)
    requires Underway(ctx, derived, [])
    ensures Expand(ctx, Root(ctx)) == Ok(derived)
  {
    assert derived + [] == derived;
  }

  /** The work list of the source, kept with its top first. */
  method ExpandFieldProjections(ctx: Context) returns (r: Result<seq<Projection>, ExpandError>)
    ensures r.Ok? <==> Expanded(ctx).Ok?
    ensures r.Ok? ==> r == Expanded(ctx)
    ensures r.Err? ==> r.error == FirstError(ctx)
  {
    var derived: seq<Projection> := [];
    var stack := [Root(ctx)];
    StartsWhole(ctx);
    while stack != []
      invariant Underway(ctx, derived, stack)
      decreases WorkAll(ctx, stack, TOP)
    {
      var e := stack[0];
      assert stack == [e] + stack[1..];
      stack := stack[1..];
      if e.depth > MAX_DEPTH {
        FailsHere(ctx, e, stack, derived);
        return Err(TooDeep);
      }
      var visited := VisitEntry(ctx, e, stack);
      if visited.Err? {
        FailsHere(ctx, e, stack, derived);
        return Err(visited.error);
      }
      ghost var v := Visit(ctx, e).value;
      if visited.value.derived != [] && |ctx.declared| + |derived + visited.value.derived| > MAX_PROJECTIONS {
        BecomesTooMany(ctx, e, v, stack, derived);
        return Err(TooMany);
      }
      StaysUnderway(ctx, e, v, stack, derived);
      VisitStep(ctx, e, v, stack, derived);
      derived := derived + visited.value.derived;
      stack := visited.value.members;
    }
    Finished(ctx, derived);
    if |ctx.declared + derived| > MAX_PROJECTIONS {
      return Err(TooMany);
    }
    return Ok(Sort(ctx.declared + derived, ByPath));
  }
}
