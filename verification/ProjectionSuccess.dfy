/** When expansion succeeds, stated on walks through the schema: a walk follows one
    reference or enters one property at a time. */
module ProjectionSuccess {
  import opened Text
  import opened Artifacts
  import opened Json
  import opened Projections
  import opened ProjectionLeaves
  import P = JsonPointer

  datatype Move = Follow(ref: string) | Enter(name: string)

  ghost predicate HasLocalRef(s: Fields, ref: string) { TextAt(s, "$ref") == Some(ref) && P.IsLocal(ref) }

  /** One move from a schema. A schema with a reference is not entered. */
  ghost function After(root: Fields, s: Fields, move: Move): Option<Fields> {
    match move
    case Follow(ref) =>
      if HasLocalRef(s, ref) && P.LocalRef(root, ref).Ok? then Some(P.LocalRef(root, ref).value) else None
    case Enter(name) =>
      if TextAt(s, "$ref").None? && Open(s) && HasMember(s, name) then Some(Properties(s)[name].fields) else None
  }

  /** Where the moves lead from `s`, if they can be made. */
  ghost function Walk(root: Fields, s: Fields, moves: seq<Move>): Option<Fields>
    decreases |moves|
  {
    if moves == [] then Some(s)
    else
      var next := After(root, s, moves[0]);
      if next.None? then None else Walk(root, next.value, moves[1..])
  }

  ghost function PathOf(moves: seq<Move>): Path {
    if moves == [] then [] else (if moves[0].Enter? then [moves[0].name] else []) + PathOf(moves[1..])
  }

  ghost function RefsOf(moves: seq<Move>): set<string> { set m | m in moves && m.Follow? :: m.ref }

  /** The schema `s`, reached after `depth` moves along `path` and the references `refs`:
      within the depth limit, any local reference resolves and is new, and no declared
      projection contradicts its type. */
  ghost predicate Fine(ctx: Context, s: Fields, path: Path, refs: set<string>, depth: nat) {
    && depth <= MAX_DEPTH
    && (forall ref :: HasLocalRef(s, ref) ==> ref !in refs && P.LocalRef(ctx.root, ref).Ok?)
    && (TextAt(s, "$ref").None? ==> Mismatch(ctx, path, TextAt(s, "type")).None?)
  }

  /** Every walk that starts at `s` ends at a fine schema. */
  ghost predicate AllFine(ctx: Context, s: Fields, path: Path, refs: set<string>, depth: nat) {
    forall moves :: Walk(ctx.root, s, moves).Some? ==>
      Fine(ctx, Walk(ctx.root, s, moves).value, path + PathOf(moves), refs + RefsOf(moves), depth + |moves|)
  }

  // ---------------------------------------------------------------- the recursion without its results

  ghost predicate Succeeds(ctx: Context, s: Fields, path: Path, refs: set<string>, depth: nat)
    decreases MAX_DEPTH + 1 - depth
  {
    && Fine(ctx, s, path, refs, depth)
    && (forall ref :: HasLocalRef(s, ref) ==> Succeeds(ctx, P.LocalRef(ctx.root, ref).value, path, refs + {ref}, depth + 1))
    && (TextAt(s, "$ref").None? && Open(s) ==>
          forall name :: HasMember(s, name) ==> Succeeds(ctx, Properties(s)[name].fields, path + [name], refs, depth + 1))
  }

  ghost predicate ChildrenSucceed(ctx: Context, t: Fields, path: Path, refs: set<string>, depth: nat)
    requires depth <= MAX_DEPTH
  {
    forall name :: HasMember(t, name) ==> Succeeds(ctx, Properties(t)[name].fields, path + [name], refs, depth + 1)
  }

  /** The part of success that lies behind the references of an entry. */
  ghost predicate Settled(ctx: Context, t: Fields, path: Path, refs: set<string>, depth: nat)
    requires depth <= MAX_DEPTH
  {
    && Mismatch(ctx, path, TextAt(t, "type")).None?
    && (Open(t) ==> ChildrenSucceed(ctx, t, path, refs, depth))
  }

  lemma {:induction false} PlainSucceeds(ctx: Context, s: Fields, path: Path, refs: set<string>, depth: nat)
    requires depth <= MAX_DEPTH && TextAt(s, "$ref").None?
    ensures Succeeds(ctx, s, path, refs, depth) <==> Settled(ctx, s, path, refs, depth)
  {
    assert forall ref :: !HasLocalRef(s, ref);
  }

  /** A foreign reference stands for the empty schema, which always settles. */
  lemma {:induction false} ForeignSucceeds(ctx: Context, s: Fields, path: Path, refs: set<string>, depth: nat)
    requires depth <= MAX_DEPTH && TextAt(s, "$ref").Some? && !P.IsLocal(TextAt(s, "$ref").value)
    ensures Succeeds(ctx, s, path, refs, depth) && Settled(ctx, map[], path, refs, depth)
  {
    assert forall ref :: !HasLocalRef(s, ref);
  }

  lemma {:induction false} ReferenceSucceeds(ctx: Context, s: Fields, path: Path, refs: set<string>, depth: nat, ref: string)
    requires depth <= MAX_DEPTH && HasLocalRef(s, ref)
    ensures Succeeds(ctx, s, path, refs, depth) <==>
            && ref !in refs && P.LocalRef(ctx.root, ref).Ok?
            && Succeeds(ctx, P.LocalRef(ctx.root, ref).value, path, refs + {ref}, depth + 1)
  {
    assert forall r :: HasLocalRef(s, r) ==> r == ref;
  }

  lemma {:induction false} TooDeepFails(ctx: Context, s: Fields, path: Path, refs: set<string>, depth: nat)
    requires depth > MAX_DEPTH
    ensures !Succeeds(ctx, s, path, refs, depth)
  {
  }

  lemma {:induction false} ChaseSucceeds(ctx: Context, s: Fields, title: Option<string>, path: Path, refs: set<string>, depth: nat)
    requires depth <= MAX_DEPTH
    ensures var chased := Chase(ctx.root, s, title, refs, depth);
            Succeeds(ctx, s, path, refs, depth) <==>
              chased.Ok? && Settled(ctx, chased.value.schema, path, chased.value.refs, chased.value.depth)
    decreases MAX_DEPTH - depth
  {
    var ref := TextAt(s, "$ref");
    if ref.None? {
      PlainSucceeds(ctx, s, path, refs, depth);
    } else if !P.IsLocal(ref.value) {
      ForeignSucceeds(ctx, s, path, refs, depth);
    } else {
      ReferenceSucceeds(ctx, s, path, refs, depth, ref.value);
      var target := P.LocalRef(ctx.root, ref.value);
      if target.Ok? {
        if depth + 1 <= MAX_DEPTH {
          ChaseSucceeds(ctx, target.value, if title.None? then TitleOf(target.value) else title, path, refs + {ref.value}, depth + 1);
        } else {
          TooDeepFails(ctx, target.value, path, refs + {ref.value}, depth + 1);
        }
      }
    }
  }

  // ---------------------------------------------------------------- expansion succeeds just then

  ghost predicate EntrySucceeds(ctx: Context, e: Entry) { Succeeds(ctx, e.schema, e.path, e.refs, e.depth) }

  ghost predicate EntriesSucceed(ctx: Context, entries: seq<Entry>) { forall e :: e in entries ==> EntrySucceeds(ctx, e) }

  lemma {:induction false} ExpandAllSucceeds(ctx: Context, entries: seq<Entry>, level: nat)
    requires Below(entries, level)
    ensures ExpandAll(ctx, entries, level).Ok? <==> EntriesSucceed(ctx, entries)
    decreases level, |entries|
  {
    if entries != [] {
      ExpandSucceeds(ctx, entries[0]);
      ExpandAllSucceeds(ctx, entries[1..], level);
    }
  }

  lemma {:induction false} MembersSucceed(ctx: Context, t: Fields, path: Path, titles: seq<string>, refs: set<string>, depth: nat)
    requires depth <= MAX_DEPTH
    ensures EntriesSucceed(ctx, Members(Properties(t), SortedNames(Properties(t).Keys), path, titles, refs, depth + 1))
       <==> ChildrenSucceed(ctx, t, path, refs, depth)
  {
    var names := SortedNames(Properties(t).Keys);
    var members := Members(Properties(t), names, path, titles, refs, depth + 1);
    forall name | HasMember(t, name) ensures Entry(Properties(t)[name].fields, path + [name], titles, refs, depth + 1) in members {
      SortedNamesMembers(Properties(t).Keys, name);
      MembersHave(Properties(t), names, path, titles, refs, depth + 1, name);
    }
    forall e | e in members
      ensures exists name :: HasMember(t, name) && e == Entry(Properties(t)[name].fields, path + [name], titles, refs, depth + 1)
    {
      var i :| 0 <= i < |members| && members[i] == e;
      var name := MembersFrom(Properties(t), names, path, titles, refs, depth + 1, i);
      assert HasMember(t, name);
    }
    if ChildrenSucceed(ctx, t, path, refs, depth) {
      forall e | e in members ensures EntrySucceeds(ctx, e) {
        var name :| HasMember(t, name) && e == Entry(Properties(t)[name].fields, path + [name], titles, refs, depth + 1);
      }
    }
    if EntriesSucceed(ctx, members) {
      forall name | HasMember(t, name) ensures Succeeds(ctx, Properties(t)[name].fields, path + [name], refs, depth + 1) {
        assert EntrySucceeds(ctx, Entry(Properties(t)[name].fields, path + [name], titles, refs, depth + 1));
      }
    }
  }

  /** What a visit yields once its references are behind it. */
  ghost predicate Yields(ctx: Context, path: Path, c: Chased, members: seq<Entry>, v: Result<Visited, ExpandError>) {
    && (v.Ok? <==> Mismatch(ctx, path, TextAt(c.schema, "type")).None?)
    && (v.Ok? ==> v.value.members == if Open(c.schema) then members else [])
  }

  lemma {:induction false} YieldsMembers(ctx: Context, e: Entry, c: Chased, members: seq<Entry>)
    requires e.depth <= MAX_DEPTH && Chase(ctx.root, e.schema, TitleOf(e.schema), e.refs, e.depth) == Ok(c)
    requires members == Members(Properties(c.schema), SortedNames(Properties(c.schema).Keys), e.path,
        TitlesOf(ctx, e, c.title), c.refs, c.depth + 1)
    ensures Yields(ctx, e.path, c, members, Visit(ctx, e))
  {
  }

  lemma {:induction false} VisitYields(ctx: Context, e: Entry, c: Chased) returns (members: seq<Entry>)
    requires e.depth <= MAX_DEPTH && Chase(ctx.root, e.schema, TitleOf(e.schema), e.refs, e.depth) == Ok(c)
    ensures Yields(ctx, e.path, c, members, Visit(ctx, e))
    ensures EntriesSucceed(ctx, members) <==> ChildrenSucceed(ctx, c.schema, e.path, c.refs, c.depth)
  {
    var titles := TitlesOf(ctx, e, c.title);
    members := Members(Properties(c.schema), SortedNames(Properties(c.schema).Keys), e.path, titles, c.refs, c.depth + 1);
    MembersSucceed(ctx, c.schema, e.path, titles, c.refs, c.depth);
    YieldsMembers(ctx, e, c, members);
  }

  lemma {:induction false} YieldsSettled(ctx: Context, path: Path, c: Chased, members: seq<Entry>, v: Result<Visited, ExpandError>)
    requires c.depth <= MAX_DEPTH && Yields(ctx, path, c, members, v)
    requires EntriesSucceed(ctx, members) <==> ChildrenSucceed(ctx, c.schema, path, c.refs, c.depth)
    ensures Settled(ctx, c.schema, path, c.refs, c.depth) <==> v.Ok? && EntriesSucceed(ctx, v.value.members)
  {
  }

  lemma {:induction false} FailedChase(ctx: Context, e: Entry)
    requires e.depth <= MAX_DEPTH && Chase(ctx.root, e.schema, TitleOf(e.schema), e.refs, e.depth).Err?
    ensures Visit(ctx, e).Err?
  {
  }

  /** One visit: it goes through, and so do its members. */
  lemma {:induction false} VisitSucceeds(ctx: Context, e: Entry, v: Result<Visited, ExpandError>)
    requires e.depth <= MAX_DEPTH && Visit(ctx, e) == v
    ensures EntrySucceeds(ctx, e) <==> v.Ok? && EntriesSucceed(ctx, v.value.members)
  {
    var chased := Chase(ctx.root, e.schema, TitleOf(e.schema), e.refs, e.depth);
    ChaseSucceeds(ctx, e.schema, TitleOf(e.schema), e.path, e.refs, e.depth);
    if chased.Ok? {
      var members := VisitYields(ctx, e, chased.value);
      YieldsSettled(ctx, e.path, chased.value, members, v);
    } else {
      FailedChase(ctx, e);
    }
  }

  lemma {:induction false} ExpandSucceeds(ctx: Context, e: Entry)
    ensures Expand(ctx, e).Ok? <==> EntrySucceeds(ctx, e)
    decreases Level(e), 0
  {
    if e.depth <= MAX_DEPTH {
      VisitSucceeds(ctx, e, Visit(ctx, e));
      if Visit(ctx, e).Ok? {
        VisitDescends(ctx, e);
        ExpandAllSucceeds(ctx, Visit(ctx, e).value.members, Level(e) - 1);
      }
    }
  }

  // ---------------------------------------------------------------- walks

  lemma {:induction false} FollowFirst(ref: string, rest: seq<Move>, path: Path, refs: set<string>)
    ensures path + PathOf([Follow(ref)] + rest) == path + PathOf(rest)
    ensures refs + RefsOf([Follow(ref)] + rest) == (refs + {ref}) + RefsOf(rest)
  {
    var moves := [Follow(ref)] + rest;
    assert moves[1..] == rest && [] + PathOf(rest) == PathOf(rest);
  }

  lemma {:induction false} EnterFirst(name: string, rest: seq<Move>, path: Path, refs: set<string>)
    ensures path + PathOf([Enter(name)] + rest) == (path + [name]) + PathOf(rest)
    ensures refs + RefsOf([Enter(name)] + rest) == refs + RefsOf(rest)
  {
    var moves := [Enter(name)] + rest;
    assert moves[1..] == rest;
    assert RefsOf(moves) == RefsOf(rest);
  }

  lemma {:induction false} WalkFirst(root: Fields, s: Fields, move: Move, rest: seq<Move>)
    ensures Walk(root, s, [move] + rest)
         == if After(root, s, move).None? then None else Walk(root, After(root, s, move).value, rest)
  {
    assert ([move] + rest)[1..] == rest;
  }

  lemma {:induction false} SucceedsWalks(ctx: Context, s: Fields, path: Path, refs: set<string>, depth: nat, moves: seq<Move>)
    requires Succeeds(ctx, s, path, refs, depth) && Walk(ctx.root, s, moves).Some?
    ensures Fine(ctx, Walk(ctx.root, s, moves).value, path + PathOf(moves), refs + RefsOf(moves), depth + |moves|)
    decreases |moves|
  {
    if moves == [] {
      assert path + [] == path && refs + RefsOf([]) == refs;
    } else {
      var move, rest := moves[0], moves[1..];
      assert moves == [move] + rest;
      WalkFirst(ctx.root, s, move, rest);
      if move.Follow? {
        SucceedsWalks(ctx, After(ctx.root, s, move).value, path, refs + {move.ref}, depth + 1, rest);
        FollowFirst(move.ref, rest, path, refs);
      } else {
        SucceedsWalks(ctx, After(ctx.root, s, move).value, path + [move.name], refs, depth + 1, rest);
        EnterFirst(move.name, rest, path, refs);
      }
    }
  }

  lemma {:induction false} FineBehindRef(ctx: Context, s: Fields, path: Path, refs: set<string>, depth: nat, ref: string, next: Fields)
    requires AllFine(ctx, s, path, refs, depth) && After(ctx.root, s, Follow(ref)) == Some(next)
    ensures AllFine(ctx, next, path, refs + {ref}, depth + 1)
  {
    forall rest | Walk(ctx.root, next, rest).Some?
      ensures Fine(ctx, Walk(ctx.root, next, rest).value, path + PathOf(rest), refs + {ref} + RefsOf(rest), depth + 1 + |rest|)
    {
      WalkFirst(ctx.root, s, Follow(ref), rest);
      FollowFirst(ref, rest, path, refs);
      assert Walk(ctx.root, s, [Follow(ref)] + rest).Some?;
    }
  }

  lemma {:induction false} FineBehindMember(ctx: Context, s: Fields, path: Path, refs: set<string>, depth: nat, name: string, next: Fields)
    requires AllFine(ctx, s, path, refs, depth) && After(ctx.root, s, Enter(name)) == Some(next)
    ensures AllFine(ctx, next, path + [name], refs, depth + 1)
  {
    forall rest | Walk(ctx.root, next, rest).Some?
      ensures Fine(ctx, Walk(ctx.root, next, rest).value, path + [name] + PathOf(rest), refs + RefsOf(rest), depth + 1 + |rest|)
    {
      WalkFirst(ctx.root, s, Enter(name), rest);
      EnterFirst(name, rest, path, refs);
      assert Walk(ctx.root, s, [Enter(name)] + rest).Some?;
    }
  }

  lemma {:induction false} FineHere(ctx: Context, s: Fields, path: Path, refs: set<string>, depth: nat)
    requires AllFine(ctx, s, path, refs, depth)
    ensures Fine(ctx, s, path, refs, depth)
  {
    assert Walk(ctx.root, s, []) == Some(s);
    assert path + PathOf([]) == path && refs + RefsOf([]) == refs;
  }

  lemma {:induction false} RefSucceeds(ctx: Context, s: Fields, path: Path, refs: set<string>, depth: nat, ref: string)
    requires AllFine(ctx, s, path, refs, depth) && depth <= MAX_DEPTH && HasLocalRef(s, ref) && P.LocalRef(ctx.root, ref).Ok?
    ensures Succeeds(ctx, P.LocalRef(ctx.root, ref).value, path, refs + {ref}, depth + 1)
    decreases MAX_DEPTH + 1 - depth, 0
  {
    FineBehindRef(ctx, s, path, refs, depth, ref, P.LocalRef(ctx.root, ref).value);
    WalksSucceed(ctx, P.LocalRef(ctx.root, ref).value, path, refs + {ref}, depth + 1);
  }

  lemma {:induction false} MemberSucceeds(ctx: Context, s: Fields, path: Path, refs: set<string>, depth: nat, name: string)
    requires AllFine(ctx, s, path, refs, depth) && depth <= MAX_DEPTH && TextAt(s, "$ref").None? && Open(s) && HasMember(s, name)
    ensures Succeeds(ctx, Properties(s)[name].fields, path + [name], refs, depth + 1)
    decreases MAX_DEPTH + 1 - depth, 0
  {
    FineBehindMember(ctx, s, path, refs, depth, name, Properties(s)[name].fields);
    WalksSucceed(ctx, Properties(s)[name].fields, path + [name], refs, depth + 1);
  }

  lemma {:induction false} WalksSucceed(ctx: Context, s: Fields, path: Path, refs: set<string>, depth: nat)
    requires AllFine(ctx, s, path, refs, depth)
    ensures Succeeds(ctx, s, path, refs, depth)
    decreases if depth > MAX_DEPTH then 0 else MAX_DEPTH + 1 - depth, 1
  {
    FineHere(ctx, s, path, refs, depth);
    forall ref | HasLocalRef(s, ref) ensures Succeeds(ctx, P.LocalRef(ctx.root, ref).value, path, refs + {ref}, depth + 1) {
      RefSucceeds(ctx, s, path, refs, depth, ref);
    }
    forall name | TextAt(s, "$ref").None? && Open(s) && HasMember(s, name)
      ensures Succeeds(ctx, Properties(s)[name].fields, path + [name], refs, depth + 1)
    {
      MemberSucceeds(ctx, s, path, refs, depth, name);
    }
  }

  /** Expansion goes through exactly when on every walk through properties and references
      the depth stays within 32, every reference resolves and is not repeated, and no
      declared projection contradicts the type found. */
  lemma {:induction false} ExpandsIff(ctx: Context)
    ensures Expand(ctx, Root(ctx)).Ok? <==> AllFine(ctx, ctx.root, [], {}, 0)
  {
    ExpandSucceeds(ctx, Root(ctx));
    if Expand(ctx, Root(ctx)).Ok? {
      forall moves | Walk(ctx.root, ctx.root, moves).Some?
        ensures Fine(ctx, Walk(ctx.root, ctx.root, moves).value, [] + PathOf(moves), {} + RefsOf(moves), 0 + |moves|)
      {
        SucceedsWalks(ctx, ctx.root, [], {}, 0, moves);
      }
    }
    if AllFine(ctx, ctx.root, [], {}, 0) { WalksSucceed(ctx, ctx.root, [], {}, 0); }
  }

  /** The whole result exists exactly when, besides, the projections are few enough. */
  lemma {:induction false} ExpandedIff(ctx: Context)
    ensures Expanded(ctx).Ok? <==>
            AllFine(ctx, ctx.root, [], {}, 0)
            && var derived := Expand(ctx, Root(ctx)); derived.Ok? ==> |ctx.declared| + |derived.value| <= MAX_PROJECTIONS
  {
    ExpandsIff(ctx);
  }
}
