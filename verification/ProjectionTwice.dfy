/** Expanding an expanded artifact type changes nothing. */
module ProjectionTwice {
  import opened Text
  import opened Artifacts
  import opened Json
  import opened Ordering
  import opened Projections
  import opened ProjectionLeaves

  /** Every canonical scalar target stores the JSON type it is the target of. */
  ghost predicate ScalarsStore(ctx: Context) {
    forall name :: name in ctx.scalars ==> ctx.scalars[name] in ctx.materialized && ctx.materialized[ctx.scalars[name]] == Some(name)
  }

  ghost predicate Extends(q: Path, path: Path) { |q| >= |path| && q[..|path|] == path }

  function OrElse(a: Option<Projection>, b: Option<Projection>): Option<Projection> { if a.Some? then a else b }

  /** At and below `e`, `later` declares what `ctx` declared or derived. */
  ghost predicate Adopts(ctx: Context, later: Context, e: Entry)
    requires Expand(ctx, e).Ok?
  {
    && later == ctx.(declared := later.declared)
    && forall q {:trigger Keeps(ctx.declared, later.declared, Expand(ctx, e).value, q)} ::
        Extends(q, e.path) ==> Keeps(ctx.declared, later.declared, Expand(ctx, e).value, q)
  }

  /** At `q` the later declarations are the earlier ones or else the derived ones. */
  ghost predicate Keeps(before: seq<Projection>, after: seq<Projection>, derived: seq<Projection>, q: Path) {
    Declared(after, q) == OrElse(Declared(before, q), Declared(derived, q))
  }

  lemma {:induction false} DeclaredIs(ps: seq<Projection>, p: Projection)
    requires DistinctPaths(ps) && p in ps
    ensures Declared(ps, p.path) == Some(p)
  {
    var q := Declared(ps, p.path).value;
    var i :| 0 <= i < |ps| && ps[i] == p;
    var j :| 0 <= j < |ps| && ps[j] == q;
  }

  /** Below one member only that member's projections matter. */
  lemma {:induction false} SameBelow(ctx: Context, members: seq<Entry>, level: nat, i: nat, q: Path, length: nat)
    requires Below(members, level) && ExpandAll(ctx, members, level).Ok? && i < |members| && Extends(q, members[i].path)
    requires DistinctEntries(members) && forall k :: 0 <= k < |members| ==> |members[k].path| == length
    ensures Expand(ctx, members[i]).Ok?
    ensures Declared(ExpandAll(ctx, members, level).value, q) == Declared(Expand(ctx, members[i]).value, q)
  {
    EachExpands(ctx, members, level, i);
    ExpandAllDistinct(ctx, members, level, length);
    ExpandDistinct(ctx, members[i]);
    var all, own := ExpandAll(ctx, members, level).value, Expand(ctx, members[i]).value;
    forall p | p in all && p.path == q ensures p in own {
      var k := ComesFrom(ctx, members, level, p);
      BelowItsEntry(ctx, members[k], p);
      assert members[k].path == q[..length] == members[i].path;
      assert k == i;
    }
    if Declared(own, q).Some? { DeclaredIs(all, Declared(own, q).value); }
  }

  /** A declared scalar is neither derived again nor mismatched. */
  lemma {:induction false} DerivedMatches(ctx: Context, later: Context, path: Path, name: Option<string>,
                                          titles: seq<string>, derived: seq<Projection>)
    requires later == ctx.(declared := later.declared) && ScalarsStore(ctx) && Mismatch(ctx, path, name).None?
    requires derived == if name.Some? && IsScalar(name.value) then Derives(ctx, path, name.value, titles) else []
    requires Declared(later.declared, path) == OrElse(Declared(ctx.declared, path), Declared(derived, path))
    ensures Mismatch(later, path, name).None?
    ensures name.Some? && IsScalar(name.value) ==> Derives(later, path, name.value, titles) == []
  {
    if derived != [] { assert Declared(derived, path) == Some(derived[0]); }
  }

  /** Visiting again finds the same members and derives nothing. */
  lemma {:induction false} VisitAgain(ctx: Context, later: Context, e: Entry)
    requires e.depth <= MAX_DEPTH && Visit(ctx, e).Ok? && ScalarsStore(ctx) && later == ctx.(declared := later.declared)
    requires Declared(later.declared, e.path) == OrElse(Declared(ctx.declared, e.path), Declared(Visit(ctx, e).value.derived, e.path))
    ensures Visit(later, e) == Ok(Visited([], Visit(ctx, e).value.members))
  {
    var chased := Chase(ctx.root, e.schema, TitleOf(e.schema), e.refs, e.depth).value;
    var titles := TitlesOf(ctx, e, chased.title);
    DerivedMatches(ctx, later, e.path, TextAt(chased.schema, "type"), titles, Visit(ctx, e).value.derived);
  }

  /** A longer path is not among the projections of an entry's own path. */
  lemma {:induction false} OwnPath(ctx: Context, e: Entry)
    requires Expand(ctx, e).Ok?
    ensures Declared(Expand(ctx, e).value, e.path) == Declared(Visit(ctx, e).value.derived, e.path)
  {
    var v := Visit(ctx, e).value;
    VisitDescends(ctx, e);
    var t, titles, refs, depth := VisitSees(ctx, e);
    SeenMembersDiffer(ctx, e, v, t, titles, refs, depth);
    var below := ExpandAll(ctx, v.members, Level(e) - 1).value;
    if v.members == [] {
      assert v.derived + [] == v.derived;
    } else {
      assert v.derived + below == below;
      forall p | p in below ensures p.path != e.path {
        var k := ComesFrom(ctx, v.members, Level(e) - 1, p);
        BelowItsEntry(ctx, v.members[k], p);
      }
    }
  }

  lemma {:induction false} ExpandAllTwice(ctx: Context, later: Context, members: seq<Entry>, level: nat)
    requires Below(members, level) && ScalarsStore(ctx)
    requires forall i :: 0 <= i < |members| ==> Expand(ctx, members[i]).Ok? && Adopts(ctx, later, members[i])
    ensures ExpandAll(later, members, level) == Ok([])
    decreases level, |members|
  {
    if members != [] {
      ExpandTwice(ctx, later, members[0]);
      ExpandAllTwice(ctx, later, members[1..], level);
    }
  }

  lemma {:induction false} KeepsSame(before: seq<Projection>, after: seq<Projection>, a: seq<Projection>, b: seq<Projection>, q: Path)
    requires Keeps(before, after, a, q) && Declared(a, q) == Declared(b, q)
    ensures Keeps(before, after, b, q)
  {
  }

  lemma {:induction false} ExtendsTwice(q: Path, p: Path, path: Path)
    requires Extends(q, p) && Extends(p, path)
    ensures Extends(q, path)
  {
    assert q[..|path|] == q[..|p|][..|path|];
  }

  ghost predicate Lower(e: Entry, path: Path) { |e.path| == |path| + 1 && Extends(e.path, path) }

  ghost predicate OneLower(members: seq<Entry>, path: Path) {
    DistinctEntries(members) && forall i {:trigger Lower(members[i], path)} :: 0 <= i < |members| ==> Lower(members[i], path)
  }

  lemma {:induction false} MemberAdopts(ctx: Context, later: Context, e: Entry, members: seq<Entry>, level: nat, i: nat)
    requires Expand(ctx, e).Ok? && Adopts(ctx, later, e) && Below(members, level) && OneLower(members, e.path) && i < |members|
    requires ExpandAll(ctx, members, level) == Expand(ctx, e)
    ensures Expand(ctx, members[i]).Ok? && Adopts(ctx, later, members[i])
  {
    EachExpands(ctx, members, level, i);
    forall k | 0 <= k < |members| ensures |members[k].path| == |e.path| + 1 { assert Lower(members[k], e.path); }
    assert Lower(members[i], e.path);
    var whole, own := Expand(ctx, e).value, Expand(ctx, members[i]).value;
    forall q | Extends(q, members[i].path) ensures Keeps(ctx.declared, later.declared, own, q) {
      SameBelow(ctx, members, level, i, q, |e.path| + 1);
      ExtendsTwice(q, members[i].path, e.path);
      KeepsSame(ctx.declared, later.declared, whole, own, q);
    }
  }

  lemma {:induction false} SeenMembersExtend(ctx: Context, e: Entry, v: Visited, t: Fields, titles: seq<string>,
                                             refs: set<string>, depth: nat)
    requires Sees(ctx, e, v, t, titles, refs, depth)
    ensures forall i :: 0 <= i < |v.members| ==> Extends(v.members[i].path, e.path)
  {
    if Open(t) {
      forall i | 0 <= i < |v.members| ensures Extends(v.members[i].path, e.path) {
        var name := MembersFrom(Properties(t), SortedNames(Properties(t).Keys), e.path, titles, refs, depth, i);
      }
    }
  }

  lemma {:induction false} NothingDerived(ctx: Context, e: Entry, members: seq<Entry>)
    requires Level(e) > 0 && Visit(ctx, e) == Ok(Visited([], members)) && Below(members, Level(e) - 1)
    requires ExpandAll(ctx, members, Level(e) - 1) == Ok([])
    ensures Expand(ctx, e) == Ok([])
  {
    assert [] + ExpandAll(ctx, members, Level(e) - 1).value == [];
  }

  /** The facts about one entry that the second expansion uses. */
  lemma {:induction false} EntryParts(ctx: Context, e: Entry) returns (v: Visited)
    requires Expand(ctx, e).Ok?
    ensures Level(e) > 0 && Visit(ctx, e) == Ok(v) && Below(v.members, Level(e) - 1) && OneLower(v.members, e.path)
    ensures v.members != [] ==> ExpandAll(ctx, v.members, Level(e) - 1) == Expand(ctx, e)
  {
    var t, titles, refs, depth;
    v, t, titles, refs, depth := ExpandSees(ctx, e);
    SeenMembersDiffer(ctx, e, v, t, titles, refs, depth);
    SeenMembersExtend(ctx, e, v, t, titles, refs, depth);
    var below := ExpandAll(ctx, v.members, Level(e) - 1).value;
    if v.members != [] { assert v.derived + below == below; }
  }

  lemma {:induction false} VisitTwice(ctx: Context, later: Context, e: Entry, v: Visited)
    requires Expand(ctx, e).Ok? && Adopts(ctx, later, e) && ScalarsStore(ctx) && e.depth <= MAX_DEPTH && Visit(ctx, e) == Ok(v)
    ensures Visit(later, e) == Ok(Visited([], v.members))
  {
    OwnPath(ctx, e);
    assert Extends(e.path, e.path);
    KeepsSame(ctx.declared, later.declared, Expand(ctx, e).value, v.derived, e.path);
    VisitAgain(ctx, later, e);
  }

  lemma {:induction false} MembersTwice(ctx: Context, later: Context, e: Entry, members: seq<Entry>, level: nat)
    requires Expand(ctx, e).Ok? && Adopts(ctx, later, e) && ScalarsStore(ctx) && Below(members, level) && OneLower(members, e.path)
    requires members != [] ==> ExpandAll(ctx, members, level) == Expand(ctx, e)
    ensures ExpandAll(later, members, level) == Ok([])
    decreases level, |members| + 1
  {
    forall i | 0 <= i < |members| ensures Expand(ctx, members[i]).Ok? && Adopts(ctx, later, members[i]) {
      MemberAdopts(ctx, later, e, members, level, i);
    }
    ExpandAllTwice(ctx, later, members, level);
  }

  lemma {:induction false} SecondVisit(ctx: Context, later: Context, e: Entry) returns (members: seq<Entry>)
    requires Expand(ctx, e).Ok? && Adopts(ctx, later, e) && ScalarsStore(ctx)
    ensures Level(e) > 0 && Visit(later, e) == Ok(Visited([], members)) && Below(members, Level(e) - 1) && OneLower(members, e.path)
    ensures members != [] ==> ExpandAll(ctx, members, Level(e) - 1) == Expand(ctx, e)
  {
    var v := EntryParts(ctx, e);
    members := v.members;
    VisitTwice(ctx, later, e, v);
  }

  /** Once the derived projections are declared, nothing is derived and nothing fails. */
  lemma {:induction false} ExpandTwice(ctx: Context, later: Context, e: Entry)
    requires Expand(ctx, e).Ok? && Adopts(ctx, later, e) && ScalarsStore(ctx)
    ensures Expand(later, e) == Ok([])
    decreases Level(e), 0
  {
    var members := SecondVisit(ctx, later, e);
    assert ExpandAll(later, members, Level(e) - 1) == Ok([]) by {
      MembersTwice(ctx, later, e, members, Level(e) - 1);
    }
    NothingDerived(later, e, members);
  }

  lemma {:induction false} SortedAdopts(ctx: Context)
    requires Expanded(ctx).Ok? && DistinctPaths(ctx.declared)
    ensures Adopts(ctx, ctx.(declared := Expanded(ctx).value), Root(ctx))
  {
    var derived := Expand(ctx, Root(ctx)).value;
    var all := Expanded(ctx).value;
    ExpandedHasDistinctPaths(ctx);
    ExpandedIsExact(ctx);
    forall p | p in all ensures p in ctx.declared || p in derived { assert p in multiset(all); }
    forall q ensures Keeps(ctx.declared, all, derived, q) {
      var wanted := OrElse(Declared(ctx.declared, q), Declared(derived, q));
      if wanted.Some? {
        assert wanted.value in multiset(ctx.declared) || wanted.value in multiset(derived);
        assert wanted.value in multiset(all);
        DeclaredIs(all, wanted.value);
      }
    }
  }

  /** Expansion is idempotent. */
  lemma {:induction false} ExpandedTwice(ctx: Context)
    requires Expanded(ctx).Ok? && DistinctPaths(ctx.declared) && ScalarsStore(ctx)
    ensures Expanded(ctx.(declared := Expanded(ctx).value)) == Expanded(ctx)
  {
    var all := Expanded(ctx).value;
    var later := ctx.(declared := all);
    SortedAdopts(ctx);
    ExpandTwice(ctx, later, Root(ctx));
    ExpandedIsExact(ctx);
    assert all + [] == all;
    SortedStays(all, ByPath);
  }
}
