/** What a successful expansion yields, stated on paths through the schema instead of on
    the work list. */
module ProjectionLeaves {
  import opened Text
  import opened Artifacts
  import opened Json
  import opened Ordering
  import opened Projections
  import P = JsonPointer

  // ---------------------------------------------------------------- leaves of a schema

  /** `n` local references lead from `schema` to `t`, which has none itself; a foreign
      reference leads to the empty schema. */
  ghost predicate RefsTo(root: Fields, schema: Fields, n: nat, t: Fields)
    decreases n
  {
    var ref := TextAt(schema, "$ref");
    if ref.None? then n == 0 && t == schema
    else if !P.IsLocal(ref.value) then n == 0 && t == map[]
    else n > 0 && P.LocalRef(root, ref.value).Ok? && RefsTo(root, P.LocalRef(root, ref.value).value, n - 1, t)
  }

  ghost predicate ResolvesTo(root: Fields, schema: Fields, t: Fields) {
    exists n :: RefsTo(root, schema, n, t)
  }

  ghost predicate HasMember(t: Fields, name: string) {
    name in Properties(t) && Properties(t)[name].Object?
  }

  /** Only schemas that are neither scalar nor array are entered. */
  ghost predicate Open(t: Fields) {
    var name := TextAt(t, "type");
    !(name.Some? && IsScalar(name.value)) && name != Some("array")
  }

  /** The schema at `path` below `schema`, references resolved on the way, is the scalar `name`. */
  ghost predicate LeafAt(root: Fields, schema: Fields, path: Path, name: string)
    decreases |path|
  {
    exists t :: ResolvesTo(root, schema, t) && LeafBelow(root, t, path, name)
  }

  ghost predicate LeafBelow(root: Fields, t: Fields, path: Path, name: string)
    decreases |path|, 0
  {
    if path == [] then TextAt(t, "type") == Some(name) && IsScalar(name)
    else Open(t) && HasMember(t, path[0]) && LeafAt(root, Properties(t)[path[0]].fields, path[1..], name)
  }

  lemma {:induction false} RefsUnique(root: Fields, schema: Fields, n: nat, t: Fields, m: nat, u: Fields)
    requires RefsTo(root, schema, n, t) && RefsTo(root, schema, m, u)
    ensures t == u
    decreases n
  {
    var ref := TextAt(schema, "$ref");
    if ref.Some? && P.IsLocal(ref.value) {
      RefsUnique(root, P.LocalRef(root, ref.value).value, n - 1, t, m - 1, u);
    }
  }

  lemma {:induction false} ResolutionUnique(root: Fields, schema: Fields, t: Fields, u: Fields)
    requires ResolvesTo(root, schema, t) && ResolvesTo(root, schema, u)
    ensures t == u
  {
    var n :| RefsTo(root, schema, n, t);
    var m :| RefsTo(root, schema, m, u);
    RefsUnique(root, schema, n, t, m, u);
  }

  lemma {:induction false} ChaseCounts(root: Fields, schema: Fields, title: Option<string>, refs: set<string>, depth: nat) returns (n: nat)
    requires depth <= MAX_DEPTH && Chase(root, schema, title, refs, depth).Ok?
    ensures RefsTo(root, schema, n, Chase(root, schema, title, refs, depth).value.schema)
    decreases MAX_DEPTH - depth
  {
    var ref := TextAt(schema, "$ref");
    if ref.None? || !P.IsLocal(ref.value) {
      n := 0;
    } else {
      var target := P.LocalRef(root, ref.value).value;
      var m := ChaseCounts(root, target, if title.None? then TitleOf(target) else title, refs + {ref.value}, depth + 1);
      n := m + 1;
    }
  }

  /** The limited walk along references, when it succeeds, resolves the schema. */
  lemma {:induction false} ChaseResolves(ctx: Context, e: Entry)
    requires e.depth <= MAX_DEPTH && Chase(ctx.root, e.schema, TitleOf(e.schema), e.refs, e.depth).Ok?
    ensures ResolvesTo(ctx.root, e.schema, Chase(ctx.root, e.schema, TitleOf(e.schema), e.refs, e.depth).value.schema)
  {
    var n := ChaseCounts(ctx.root, e.schema, TitleOf(e.schema), e.refs, e.depth);
  }

  // ---------------------------------------------------------------- members

  lemma {:induction false} MembersFrom(properties: Fields, names: seq<string>, path: Path, titles: seq<string>,
                                       refs: set<string>, depth: nat, i: nat) returns (name: string)
    requires i < |Members(properties, names, path, titles, refs, depth)|
    ensures name in names && name in properties && properties[name].Object?
    ensures Members(properties, names, path, titles, refs, depth)[i] == Entry(properties[name].fields, path + [name], titles, refs, depth)
  {
    if names[0] in properties && properties[names[0]].Object? {
      if i == 0 {
        name := names[0];
      } else {
        name := MembersFrom(properties, names[1..], path, titles, refs, depth, i - 1);
      }
    } else {
      name := MembersFrom(properties, names[1..], path, titles, refs, depth, i);
    }
  }

  lemma {:induction false} MembersHave(properties: Fields, names: seq<string>, path: Path, titles: seq<string>,
                                       refs: set<string>, depth: nat, name: string)
    requires name in names && name in properties && properties[name].Object?
    ensures Entry(properties[name].fields, path + [name], titles, refs, depth) in Members(properties, names, path, titles, refs, depth)
  {
    if names[0] != name { MembersHave(properties, names[1..], path, titles, refs, depth, name); }
  }

  ghost predicate DistinctEntries(entries: seq<Entry>) {
    forall i, j :: 0 <= i < j < |entries| ==> entries[i].path != entries[j].path
  }

  lemma {:induction false} MembersDiffer(properties: Fields, names: seq<string>, path: Path, titles: seq<string>,
                                         refs: set<string>, depth: nat)
    requires forall i, j :: 0 <= i < j < |names| ==> names[i] != names[j]
    ensures DistinctEntries(Members(properties, names, path, titles, refs, depth))
  {
    if names != [] {
      var rest := Members(properties, names[1..], path, titles, refs, depth);
      MembersDiffer(properties, names[1..], path, titles, refs, depth);
      forall j | 0 <= j < |rest| ensures rest[j].path != path + [names[0]] {
        var name := MembersFrom(properties, names[1..], path, titles, refs, depth, j);
        assert (path + [name])[|path|] == name && (path + [names[0]])[|path|] == names[0];
      }
      var ms := Members(properties, names, path, titles, refs, depth);
      if names[0] in properties && properties[names[0]].Object? {
        assert ms == [Entry(properties[names[0]].fields, path + [names[0]], titles, refs, depth)] + rest;
      } else {
        assert ms == [] + rest;
      }
    }
  }

  // ---------------------------------------------------------------- results by entry

  lemma {:induction false} EachExpands(ctx: Context, entries: seq<Entry>, level: nat, i: nat)
    requires Below(entries, level) && ExpandAll(ctx, entries, level).Ok? && i < |entries|
    ensures Expand(ctx, entries[i]).Ok?
    ensures forall p :: p in Expand(ctx, entries[i]).value ==> p in ExpandAll(ctx, entries, level).value
    decreases i
  {
    if i > 0 { EachExpands(ctx, entries[1..], level, i - 1); }
  }

  lemma {:induction false} ComesFrom(ctx: Context, entries: seq<Entry>, level: nat, p: Projection) returns (i: nat)
    requires Below(entries, level) && ExpandAll(ctx, entries, level).Ok? && p in ExpandAll(ctx, entries, level).value
    ensures i < |entries| && Expand(ctx, entries[i]).Ok? && p in Expand(ctx, entries[i]).value
    decreases |entries|
  {
    if p in Expand(ctx, entries[0]).value {
      i := 0;
    } else {
      var k := ComesFrom(ctx, entries[1..], level, p);
      i := k + 1;
    }
  }

  /** One visit, seen through the resolved schema `t`. */
  ghost predicate Sees(ctx: Context, e: Entry, v: Visited, t: Fields, titles: seq<string>, refs: set<string>, depth: nat) {
    var name := TextAt(t, "type");
    && ResolvesTo(ctx.root, e.schema, t)
    && (name.Some? && IsScalar(name.value) ==> v.members == [] && v.derived == Derives(ctx, e.path, name.value, titles))
    && (name == Some("array") ==> v.members == [] && v.derived == [])
    && (Open(t) ==> v.derived == [] && v.members == Members(Properties(t), SortedNames(Properties(t).Keys), e.path, titles, refs, depth))
  }

  lemma {:induction false} VisitSees(ctx: Context, e: Entry) returns (t: Fields, titles: seq<string>, refs: set<string>, depth: nat)
    requires e.depth <= MAX_DEPTH && Visit(ctx, e).Ok?
    ensures Sees(ctx, e, Visit(ctx, e).value, t, titles, refs, depth)
  {
    var chased := Chase(ctx.root, e.schema, TitleOf(e.schema), e.refs, e.depth).value;
    ChaseResolves(ctx, e);
    t, refs, depth := chased.schema, chased.refs, chased.depth + 1;
    titles := TitlesOf(ctx, e, chased.title);
  }

  lemma {:induction false} ExpandSees(ctx: Context, e: Entry)
    returns (v: Visited, t: Fields, titles: seq<string>, refs: set<string>, depth: nat)
    requires Expand(ctx, e).Ok?
    ensures Level(e) > 0 && Visit(ctx, e) == Ok(v) && Below(v.members, Level(e) - 1) && Sees(ctx, e, v, t, titles, refs, depth)
    ensures ExpandAll(ctx, v.members, Level(e) - 1).Ok?
    ensures Expand(ctx, e).value == v.derived + ExpandAll(ctx, v.members, Level(e) - 1).value
  {
    v := Visit(ctx, e).value;
    VisitDescends(ctx, e);
    t, titles, refs, depth := VisitSees(ctx, e);
  }

  // ---------------------------------------------------------------- derived projections are the leaves

  /** The leaf `suffix` below a schema at `prefix` calls for a derived projection. */
  ghost predicate Wanted(ctx: Context, schema: Fields, prefix: Path, suffix: Path, name: string) {
    && LeafAt(ctx.root, schema, suffix, name)
    && ctx.derive && prefix + suffix != [] && name in ctx.scalars
    && Declared(ctx.declared, prefix + suffix).None?
  }

  ghost predicate Derived(ctx: Context, schema: Fields, prefix: Path, p: Projection) {
    exists suffix, name :: Wanted(ctx, schema, prefix, suffix, name) && p.path == prefix + suffix && p.target == ctx.scalars[name]
  }

  lemma {:induction false} LeafThroughMember(root: Fields, schema: Fields, t: Fields, member: string, suffix: Path, name: string)
    requires ResolvesTo(root, schema, t) && Open(t) && HasMember(t, member)
    requires LeafAt(root, Properties(t)[member].fields, suffix, name)
    ensures LeafAt(root, schema, [member] + suffix, name)
  {
    assert ([member] + suffix)[1..] == suffix;
    assert LeafBelow(root, t, [member] + suffix, name);
  }

  lemma {:induction false} LeafIsDerived(ctx: Context, e: Entry, v: Visited, t: Fields, titles: seq<string>,
                                         refs: set<string>, depth: nat, p: Projection)
    requires Sees(ctx, e, v, t, titles, refs, depth) && p in v.derived
    ensures Derived(ctx, e.schema, e.path, p)
  {
    var name := TextAt(t, "type");
    assert name.Some? && IsScalar(name.value);
    assert LeafBelow(ctx.root, t, [], name.value);
    assert e.path + [] == e.path;
    assert Wanted(ctx, e.schema, e.path, [], name.value);
  }

  lemma {:induction false} MemberIsDerived(ctx: Context, e: Entry, v: Visited, t: Fields, titles: seq<string>,
                                           refs: set<string>, depth: nat, i: nat, p: Projection)
    requires Sees(ctx, e, v, t, titles, refs, depth) && i < |v.members| && Derived(ctx, v.members[i].schema, v.members[i].path, p)
    ensures Derived(ctx, e.schema, e.path, p)
  {
    var suffix, leaf :| Wanted(ctx, v.members[i].schema, v.members[i].path, suffix, leaf)
        && p.path == v.members[i].path + suffix && p.target == ctx.scalars[leaf];
    var member := MembersFrom(Properties(t), SortedNames(Properties(t).Keys), e.path, titles, refs, depth, i);
    LeafThroughMember(ctx.root, e.schema, t, member, suffix, leaf);
    assert e.path + ([member] + suffix) == (e.path + [member]) + suffix;
    assert Wanted(ctx, e.schema, e.path, [member] + suffix, leaf);
  }

  /** Every derived projection belongs to a wanted leaf. */
  lemma {:induction false} ExpandSound(ctx: Context, e: Entry, p: Projection)
    requires Expand(ctx, e).Ok? && p in Expand(ctx, e).value
    ensures Derived(ctx, e.schema, e.path, p)
    decreases Level(e)
  {
    var v, t, titles, refs, depth := ExpandSees(ctx, e);
    if p in v.derived {
      LeafIsDerived(ctx, e, v, t, titles, refs, depth, p);
    } else {
      var i := ComesFrom(ctx, v.members, Level(e) - 1, p);
      assert v.members[i] in v.members;
      ExpandSound(ctx, v.members[i], p);
      MemberIsDerived(ctx, e, v, t, titles, refs, depth, i, p);
    }
  }

  lemma {:induction false} WantedHere(ctx: Context, e: Entry, v: Visited, t: Fields, titles: seq<string>,
                                      refs: set<string>, depth: nat, name: string)
    requires Sees(ctx, e, v, t, titles, refs, depth) && Wanted(ctx, e.schema, e.path, [], name)
    ensures v.derived != [] && v.derived[0].path == e.path && v.derived[0].target == ctx.scalars[name]
  {
    var u :| ResolvesTo(ctx.root, e.schema, u) && LeafBelow(ctx.root, u, [], name);
    ResolutionUnique(ctx.root, e.schema, t, u);
    assert e.path + [] == e.path;
  }

  lemma {:induction false} WantedInMember(ctx: Context, e: Entry, v: Visited, t: Fields, titles: seq<string>,
                                          refs: set<string>, depth: nat, suffix: Path, name: string) returns (i: nat)
    requires Sees(ctx, e, v, t, titles, refs, depth) && suffix != [] && Wanted(ctx, e.schema, e.path, suffix, name)
    ensures i < |v.members| && Wanted(ctx, v.members[i].schema, v.members[i].path, suffix[1..], name)
    ensures v.members[i].path + suffix[1..] == e.path + suffix
  {
    var u :| ResolvesTo(ctx.root, e.schema, u) && LeafBelow(ctx.root, u, suffix, name);
    ResolutionUnique(ctx.root, e.schema, t, u);
    var properties := Properties(t);
    SortedNamesMembers(properties.Keys, suffix[0]);
    MembersHave(properties, SortedNames(properties.Keys), e.path, titles, refs, depth, suffix[0]);
    var m := Entry(properties[suffix[0]].fields, e.path + [suffix[0]], titles, refs, depth);
    var k :| 0 <= k < |v.members| && v.members[k] == m;
    i := k;
    assert e.path + suffix == m.path + suffix[1..];
  }

  ghost predicate Has(ps: seq<Projection>, path: Path, target: TypeKey) {
    exists k :: 0 <= k < |ps| && ps[k].path == path && ps[k].target == target
  }

  lemma {:induction false} HasInFront(a: seq<Projection>, b: seq<Projection>, path: Path, target: TypeKey)
    requires Has(a, path, target) || Has(b, path, target)
    ensures Has(a + b, path, target)
  {
    if Has(a, path, target) {
      var k :| 0 <= k < |a| && a[k].path == path && a[k].target == target;
      assert (a + b)[k] == a[k];
    } else {
      var k :| 0 <= k < |b| && b[k].path == path && b[k].target == target;
      assert (a + b)[|a| + k] == b[k];
    }
  }

  lemma {:induction false} HasInEach(ctx: Context, entries: seq<Entry>, level: nat, i: nat, path: Path, target: TypeKey)
    requires Below(entries, level) && ExpandAll(ctx, entries, level).Ok? && i < |entries|
    requires Expand(ctx, entries[i]).Ok? && Has(Expand(ctx, entries[i]).value, path, target)
    ensures Has(ExpandAll(ctx, entries, level).value, path, target)
  {
    EachExpands(ctx, entries, level, i);
    var k :| 0 <= k < |Expand(ctx, entries[i]).value| && Expand(ctx, entries[i]).value[k].path == path
        && Expand(ctx, entries[i]).value[k].target == target;
    assert Expand(ctx, entries[i]).value[k] in ExpandAll(ctx, entries, level).value;
  }

  /** Every wanted leaf has a derived projection. */
  lemma {:induction false} ExpandComplete(ctx: Context, e: Entry, suffix: Path, name: string)
    requires Expand(ctx, e).Ok? && Wanted(ctx, e.schema, e.path, suffix, name)
    ensures Has(Expand(ctx, e).value, e.path + suffix, ctx.scalars[name])
    decreases Level(e), 1
  {
    var v, t, titles, refs, depth := ExpandSees(ctx, e);
    var below := ExpandAll(ctx, v.members, Level(e) - 1).value;
    if suffix == [] {
      WantedHere(ctx, e, v, t, titles, refs, depth, name);
      assert e.path + [] == e.path;
      assert Has(v.derived, e.path + suffix, ctx.scalars[name]);
    } else {
      var i := WantedInMember(ctx, e, v, t, titles, refs, depth, suffix, name);
      MemberComplete(ctx, v.members, Level(e) - 1, i, suffix[1..], name);
    }
    HasInFront(v.derived, below, e.path + suffix, ctx.scalars[name]);
  }

  lemma {:induction false} MemberComplete(ctx: Context, members: seq<Entry>, level: nat, i: nat, suffix: Path, name: string)
    requires Below(members, level) && ExpandAll(ctx, members, level).Ok? && i < |members|
    requires Wanted(ctx, members[i].schema, members[i].path, suffix, name)
    ensures Has(ExpandAll(ctx, members, level).value, members[i].path + suffix, ctx.scalars[name])
    decreases level, 2
  {
    assert members[i] in members;
    EachExpands(ctx, members, level, i);
    ExpandComplete(ctx, members[i], suffix, name);
    HasInEach(ctx, members, level, i, members[i].path + suffix, ctx.scalars[name]);
  }

  ghost predicate DistinctPaths(ps: seq<Projection>) {
    forall i, j :: 0 <= i < j < |ps| ==> ps[i].path != ps[j].path
  }

  lemma {:induction false} DistinctAppend(a: seq<Projection>, b: seq<Projection>)
    requires DistinctPaths(a) && DistinctPaths(b) && forall p, q :: p in a && q in b ==> p.path != q.path
    ensures DistinctPaths(a + b)
  {
    var ps := a + b;
    forall i, j | 0 <= i < j < |ps| ensures ps[i].path != ps[j].path {
      if i < |a| && j >= |a| { assert ps[i] in a && ps[j] in b; }
    }
  }

  lemma {:induction false} BelowItsEntry(ctx: Context, e: Entry, p: Projection)
    requires Expand(ctx, e).Ok? && p in Expand(ctx, e).value
    ensures |p.path| >= |e.path| && p.path[..|e.path|] == e.path
  {
    ExpandSound(ctx, e, p);
    var suffix, name :| Wanted(ctx, e.schema, e.path, suffix, name) && p.path == e.path + suffix;
  }

  lemma {:induction false} ExpandAllDistinct(ctx: Context, entries: seq<Entry>, level: nat, length: nat)
    requires Below(entries, level) && ExpandAll(ctx, entries, level).Ok?
    requires forall i :: 0 <= i < |entries| ==> |entries[i].path| == length
    requires DistinctEntries(entries)
    ensures DistinctPaths(ExpandAll(ctx, entries, level).value)
    decreases level, |entries|
  {
    if entries != [] {
      ExpandDistinct(ctx, entries[0]);
      ExpandAllDistinct(ctx, entries[1..], level, length);
      var first, rest := Expand(ctx, entries[0]).value, ExpandAll(ctx, entries[1..], level).value;
      forall p, q | p in first && q in rest ensures p.path != q.path {
        BelowItsEntry(ctx, entries[0], p);
        var k := ComesFrom(ctx, entries[1..], level, q);
        BelowItsEntry(ctx, entries[1..][k], q);
        assert entries[1..][k] == entries[k + 1];
      }
      DistinctAppend(first, rest);
    }
  }

  lemma {:induction false} SeenMembersDiffer(ctx: Context, e: Entry, v: Visited, t: Fields, titles: seq<string>,
                                             refs: set<string>, depth: nat)
    requires Sees(ctx, e, v, t, titles, refs, depth)
    ensures DistinctEntries(v.members) && forall i :: 0 <= i < |v.members| ==> |v.members[i].path| == |e.path| + 1
    ensures v.members == [] || v.derived == []
    ensures |v.derived| <= 1
  {
    if Open(t) {
      var names := SortedNames(Properties(t).Keys);
      SortedNamesInOrder(Properties(t).Keys);
      MembersDiffer(Properties(t), names, e.path, titles, refs, depth);
      forall i | 0 <= i < |v.members| ensures |v.members[i].path| == |e.path| + 1 {
        var name := MembersFrom(Properties(t), names, e.path, titles, refs, depth, i);
      }
    }
  }

  lemma {:induction false} ExpandDistinct(ctx: Context, e: Entry)
    requires Expand(ctx, e).Ok?
    ensures DistinctPaths(Expand(ctx, e).value)
    decreases Level(e), 0
  {
    var v, t, titles, refs, depth := ExpandSees(ctx, e);
    SeenMembersDiffer(ctx, e, v, t, titles, refs, depth);
    ExpandAllDistinct(ctx, v.members, Level(e) - 1, |e.path| + 1);
  }

  // ---------------------------------------------------------------- the whole result

  /** On success the result holds the declared projections and, for every undeclared
      scalar leaf below the root with an installed target, exactly one derived one. */
  lemma {:induction false} ExpandedIsExact(ctx: Context)
    requires Expanded(ctx).Ok?
    ensures var derived := Expand(ctx, Root(ctx)).value;
            && multiset(Expanded(ctx).value) == multiset(ctx.declared) + multiset(derived)
            && |Expanded(ctx).value| <= MAX_PROJECTIONS
            && Ascending(Expanded(ctx).value, ByPath)
            && DistinctPaths(derived)
            && (forall p :: p in derived ==> Derived(ctx, ctx.root, [], p))
            && (forall path, name :: Wanted(ctx, ctx.root, [], path, name) ==> Has(derived, path, ctx.scalars[name]))
  {
    var derived := Expand(ctx, Root(ctx)).value;
    SortsByPath(ctx.declared + derived);
    assert |multiset(Expanded(ctx).value)| == |multiset(ctx.declared + derived)|;
    ExpandDistinct(ctx, Root(ctx));
    forall p | p in derived ensures Derived(ctx, ctx.root, [], p) { ExpandSound(ctx, Root(ctx), p); }
    forall path, name | Wanted(ctx, ctx.root, [], path, name) ensures Has(derived, path, ctx.scalars[name]) {
      ExpandComplete(ctx, Root(ctx), path, name);
      assert [] + path == path;
    }
  }

  lemma {:induction false} SortsByPath(ps: seq<Projection>)
    ensures Ascending(Sort(ps, ByPath), ByPath) && multiset(Sort(ps, ByPath)) == multiset(ps)
  {
    StringAndPathOrders();
    SortSorts(ps, ByPath);
  }

  lemma {:induction false} PermutedDistinct(a: seq<Projection>, b: seq<Projection>)
    requires DistinctPaths(a) && multiset(a) == multiset(b)
    ensures DistinctPaths(b)
  {
    forall i, j | 0 <= i < j < |b| ensures b[i].path != b[j].path {
      assert b[i] in multiset(a) && b[j] in multiset(a);
      var k :| 0 <= k < |a| && a[k] == b[i];
      var l :| 0 <= l < |a| && a[l] == b[j];
      if b[i] == b[j] {
        TwiceIn(b, i, j);
        OnceIn(a, k);
      }
    }
  }

  lemma {:induction false} TwiceIn(b: seq<Projection>, i: nat, j: nat)
    requires i < j < |b| && b[i] == b[j]
    ensures multiset(b)[b[i]] >= 2
  {
    assert b == b[..i] + [b[i]] + b[i + 1..j] + [b[j]] + b[j + 1..];
  }

  lemma {:induction false} OnceIn(a: seq<Projection>, k: nat)
    requires DistinctPaths(a) && k < |a|
    ensures multiset(a)[a[k]] == 1
  {
    assert a == a[..k] + [a[k]] + a[k + 1..];
    assert a[k] !in a[..k] && a[k] !in a[k + 1..];
  }

  /** No path is repeated when the declared ones are not, as the registry checks. */
  lemma {:induction false} ExpandedHasDistinctPaths(ctx: Context)
    requires Expanded(ctx).Ok? && DistinctPaths(ctx.declared)
    ensures DistinctPaths(Expanded(ctx).value)
  {
    var derived := Expand(ctx, Root(ctx)).value;
    ExpandDistinct(ctx, Root(ctx));
    forall p, q | p in ctx.declared && q in derived ensures p.path != q.path {
      ExpandSound(ctx, Root(ctx), q);
      var suffix, name :| Wanted(ctx, ctx.root, [], suffix, name) && q.path == [] + suffix;
    }
    DistinctAppend(ctx.declared, derived);
    SortsByPath(ctx.declared + derived);
    PermutedDistinct(ctx.declared + derived, Expanded(ctx).value);
  }
}
