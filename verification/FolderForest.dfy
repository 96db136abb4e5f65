/** Library folders as a parent relation (apps/web/e2e/library-folders-stub.ts). */
module FolderForest {
  import opened Text
  import opened ParentChains
  import opened Sets

  datatype Folder = Folder(id: string, workspace: string, parent: Option<string>, name: string)

  function Find(folders: seq<Folder>, id: string): (r: Option<Folder>)
    ensures r.Some? ==> r.value in folders && r.value.id == id
    ensures r.None? <==> forall f :: f in folders ==> f.id != id
  {
    if folders == [] then None else if folders[0].id == id then Some(folders[0]) else Find(folders[1..], id)
  }

  function ParentIn(folders: seq<Folder>, id: string): Option<string> {
    var folder := Find(folders, id);
    if folder.None? then None else folder.value.parent
  }

  /** The parent relation of a list of folders. */
  function Relation(folders: seq<Folder>): Parent { id => ParentIn(folders, id) }

  /** `id` is `candidate` or one of its ancestors. */
  ghost predicate Inside(folders: seq<Folder>, id: string, candidate: string) {
    exists n: nat :: Up(Relation(folders), Some(candidate), n) == Some(id)
  }

  function Parents(folders: seq<Folder>): set<string> { set f | f in folders && f.parent.Some? :: f.parent.value }

  /** `seen` holds the first `k` names of the walk, and `id` is not among them. */
  ghost predicate Walked(parent: Parent, id: string, candidate: string, k: nat, seen: set<string>) {
    && (forall x :: x in seen ==> exists j :: 0 <= j < k && Up(parent, Some(candidate), j) == Some(x))
    && (forall j :: 0 <= j < k ==> Up(parent, Some(candidate), j) != Some(id))
  }

  lemma {:induction false} WalkedOn(parent: Parent, id: string, candidate: string, k: nat, seen: set<string>, x: string)
    requires Walked(parent, id, candidate, k, seen) && Up(parent, Some(candidate), k) == Some(x) && x != id
    ensures Walked(parent, id, candidate, k + 1, seen + {x})
  {
    forall y | y in seen + {x} ensures exists j :: 0 <= j < k + 1 && Up(parent, Some(candidate), j) == Some(y) {
      if y == x {
        assert Up(parent, Some(candidate), k) == Some(y);
      } else {
        var j :| 0 <= j < k && Up(parent, Some(candidate), j) == Some(y);
        assert 0 <= j < k + 1 && Up(parent, Some(candidate), j) == Some(y);
      }
    }
  }

  lemma {:induction false} WalkEnds(folders: seq<Folder>, id: string, candidate: string, k: nat, seen: set<string>)
    requires Walked(Relation(folders), id, candidate, k, seen)
    requires var current := Up(Relation(folders), Some(candidate), k); current.Some? ==> current.value in seen
    ensures !Inside(folders, id, candidate)
  {
    var current := Up(Relation(folders), Some(candidate), k);
    var j: nat := 0;
    if current.Some? {
      j :| 0 <= j < k && Up(Relation(folders), Some(candidate), j) == Some(current.value);
    }
    forall n: nat ensures Up(Relation(folders), Some(candidate), n) != Some(id) {
      NeverMet(Relation(folders), Some(candidate), id, j, k, n);
    }
  }

  /** The walk with its `seen` set decides ancestor-or-self on every state, cyclic ones
      included. */
  method IsInside(folders: seq<Folder>, id: string, candidate: string) returns (r: bool)
    ensures r <==> Inside(folders, id, candidate)
  {
    var seen: set<string> := {};
    var current := Some(candidate);
    ghost var k: nat := 0;
    ghost var universe := {candidate} + Parents(folders);
    while current.Some? && current.value !in seen
      invariant current == Up(Relation(folders), Some(candidate), k) && seen <= universe
      invariant current.Some? ==> current.value in universe
      invariant Walked(Relation(folders), id, candidate, k, seen)
      decreases |universe| - |seen|
    {
      if current.value == id {
        return true;
      }
      SubsetSize(seen + {current.value}, universe);
      WalkedOn(Relation(folders), id, candidate, k, seen, current.value);
      seen := seen + {current.value};
      current := ParentIn(folders, current.value);
      k := k + 1;
    }
    WalkEnds(folders, id, candidate, k, seen);
    return false;
  }

  // ---------------------------------------------------------------- forests

  ghost predicate DistinctIds(folders: seq<Folder>) { forall i, j :: 0 <= i < j < |folders| ==> folders[i].id != folders[j].id }

  ghost predicate ParentsExist(folders: seq<Folder>) {
    forall f :: f in folders && f.parent.Some? ==> Find(folders, f.parent.value).Some?
  }

  /** Every folder reaches a root. */
  ghost predicate Rooted(folders: seq<Folder>) { forall f :: f in folders ==> ReachesRoot(Relation(folders), Some(f.id)) }

  /** In a rooted relation no folder lies below itself. */
  lemma {:induction false} NoFolderBelowItself(folders: seq<Folder>, f: Folder, n: nat)
    requires Rooted(folders) && f in folders && n >= 1
    ensures Up(Relation(folders), Some(f.id), n) != Some(f.id)
  {
    NeverBelowItself(Relation(folders), f.id, n);
  }

  lemma {:induction false} FoundReaches(folders: seq<Folder>, id: string)
    requires Rooted(folders) && Find(folders, id).Some?
    ensures ReachesRoot(Relation(folders), Some(id))
  {
    assert Find(folders, id).value in folders;
  }

  lemma {:induction false} TopReaches(parent: Parent)
    ensures ReachesRoot(parent, None) && forall k: nat, id :: Up(parent, None, k) != Some(id)
  {
    assert Up(parent, None, 0) == None;
    forall k: nat, id: string ensures Up(parent, None, k) != Some(id) { UpStaysAtTop(parent, None, 0, k); }
  }

  lemma {:induction false} FindUnique(folders: seq<Folder>, f: Folder)
    requires DistinctIds(folders) && f in folders
    ensures Find(folders, f.id) == Some(f)
  {
    var g := Find(folders, f.id).value;
    var i :| 0 <= i < |folders| && folders[i] == f;
    var j :| 0 <= j < |folders| && folders[j] == g;
  }

  /** Replacing a folder by one with the same id. */
  lemma {:induction false} Replaced(folders: seq<Folder>, i: nat, f: Folder)
    requires DistinctIds(folders) && i < |folders| && f.id == folders[i].id
    ensures DistinctIds(folders[i := f]) && Find(folders[i := f], f.id) == Some(f)
    ensures forall x :: x != f.id ==> Find(folders[i := f], x) == Find(folders, x)
    ensures forall x :: Find(folders[i := f], x).Some? <==> Find(folders, x).Some?
  {
    var after := folders[i := f];
    assert after[i] == f;
    FindUnique(after, f);
    forall x ensures x != f.id ==> Find(after, x) == Find(folders, x) {
      if x != f.id && Find(folders, x).Some? {
        var g := Find(folders, x).value;
        var j :| 0 <= j < |folders| && folders[j] == g;
        assert after[j] == g;
        FindUnique(after, g);
      } else if x != f.id {
        forall g | g in after ensures g.id != x { var j :| 0 <= j < |after| && after[j] == g; }
      }
    }
  }

  lemma {:induction false} MoveStaysRooted(folders: seq<Folder>, i: nat, parent: Option<string>)
    requires DistinctIds(folders) && Rooted(folders) && i < |folders|
    requires parent.Some? ==> Find(folders, parent.value).Some? && !Inside(folders, folders[i].id, parent.value)
    ensures Rooted(folders[i := folders[i].(parent := parent)])
  {
    var id, after := folders[i].id, folders[i := folders[i].(parent := parent)];
    Replaced(folders, i, folders[i].(parent := parent));
    assert Relation(after)(id) == parent;
    if parent.Some? { FoundReaches(folders, parent.value); } else { TopReaches(Relation(folders)); }
    forall f | f in after ensures ReachesRoot(Relation(after), Some(f.id)) {
      assert Find(after, f.id).Some?;
      FoundReaches(folders, f.id);
      MoveReaches(Relation(folders), Relation(after), id, f.id);
    }
  }

  lemma {:induction false} SameChain(before: Parent, after: Parent, current: Option<string>, n: nat)
    requires forall x :: after(x) == before(x)
    ensures Up(after, current, n) == Up(before, current, n)
  {
    if n > 0 { SameChain(before, after, current, n - 1); }
  }

  lemma {:induction false} RenameStaysRooted(folders: seq<Folder>, i: nat, name: string)
    requires DistinctIds(folders) && Rooted(folders) && i < |folders|
    ensures Rooted(folders[i := folders[i].(name := name)])
  {
    var after := folders[i := folders[i].(name := name)];
    Replaced(folders, i, folders[i].(name := name));
    FindUnique(folders, folders[i]);
    forall f | f in after ensures ReachesRoot(Relation(after), Some(f.id)) {
      assert Find(after, f.id).Some?;
      FoundReaches(folders, f.id);
      var n: nat :| Up(Relation(folders), Some(f.id), n) == None;
      SameChain(Relation(folders), Relation(after), Some(f.id), n);
    }
  }

  // ---------------------------------------------------------------- adding and removing

  lemma {:induction false} Appended(folders: seq<Folder>, f: Folder)
    requires DistinctIds(folders) && Find(folders, f.id).None?
    ensures DistinctIds(folders + [f]) && Find(folders + [f], f.id) == Some(f)
    ensures forall x :: x != f.id ==> Find(folders + [f], x) == Find(folders, x)
  {
    var after := folders + [f];
    assert after[|folders|] == f;
    FindUnique(after, f);
    forall x ensures x != f.id ==> Find(after, x) == Find(folders, x) {
      if x != f.id && Find(folders, x).Some? { FindUnique(after, Find(folders, x).value); }
    }
  }

  /** A chain that starts at a folder passes only folders. */
  lemma {:induction false} KnownChain(folders: seq<Folder>, id: string, n: nat)
    requires ParentsExist(folders) && Find(folders, id).Some?
    ensures var top := Up(Relation(folders), Some(id), n); top.Some? ==> Find(folders, top.value).Some?
  {
    if n > 0 { KnownChain(folders, id, n - 1); }
  }

  lemma {:induction false} AddStaysRooted(folders: seq<Folder>, f: Folder)
    requires DistinctIds(folders) && Rooted(folders) && ParentsExist(folders) && Find(folders, f.id).None?
    requires f.parent.Some? ==> Find(folders, f.parent.value).Some?
    ensures Rooted(folders + [f])
  {
    var after := folders + [f];
    Appended(folders, f);
    assert Relation(after)(f.id) == f.parent;
    if f.parent.Some? {
      FoundReaches(folders, f.parent.value);
      forall k: nat ensures Up(Relation(folders), f.parent, k) != Some(f.id) { KnownChain(folders, f.parent.value, k); }
    } else {
      TopReaches(Relation(folders));
    }
    forall g | g in after ensures ReachesRoot(Relation(after), Some(g.id)) {
      if g == f {
        assert ParentIn(folders, f.id) == None;
        assert Up(Relation(folders), Some(f.id), 0) == Some(f.id);
        assert Up(Relation(folders), Some(f.id), 1) == None;
      }
      MoveReaches(Relation(folders), Relation(after), f.id, g.id);
    }
  }

  function Without(folders: seq<Folder>, id: string): (r: seq<Folder>)
    ensures forall f :: f in r <==> f in folders && f.id != id
  {
    if folders == [] then [] else (if folders[0].id != id then [folders[0]] else []) + Without(folders[1..], id)
  }

  lemma {:induction false} WithoutFinds(folders: seq<Folder>, id: string, x: string)
    ensures x != id ==> Find(Without(folders, id), x) == Find(folders, x)
    ensures Find(Without(folders, id), id).None?
  {
    if folders != [] {
      WithoutFinds(folders[1..], id, x);
      var rest := Without(folders[1..], id);
      assert Without(folders, id) == if folders[0].id != id then [folders[0]] + rest else rest;
    }
  }

  lemma {:induction false} WithoutDistinct(folders: seq<Folder>, id: string)
    requires DistinctIds(folders)
    ensures DistinctIds(Without(folders, id))
  {
    if folders != [] {
      var rest := Without(folders[1..], id);
      WithoutDistinct(folders[1..], id);
      forall f | f in rest ensures f.id != folders[0].id {
        var i :| 0 <= i < |folders[1..]| && folders[1..][i] == f;
        assert folders[0].id != folders[i + 1].id;
      }
    }
  }

  lemma {:induction false} RemoveStaysRooted(folders: seq<Folder>, id: string)
    requires DistinctIds(folders) && Rooted(folders)
    ensures Rooted(Without(folders, id))
  {
    var after := Without(folders, id);
    forall x: string ensures x != id ==> ParentIn(after, x) == ParentIn(folders, x) { WithoutFinds(folders, id, x); }
    WithoutFinds(folders, id, id);
    assert Relation(after)(id) == None;
    TopReaches(Relation(folders));
    forall f | f in after ensures ReachesRoot(Relation(after), Some(f.id)) {
      MoveReaches(Relation(folders), Relation(after), id, f.id);
    }
  }
}
