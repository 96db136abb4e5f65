/** The Library routes: folders, placements and artifacts
    (apps/web/e2e/library-folders-stub.ts:127-314). */
module Library {
  import opened Text
  import opened ParentChains
  import opened FolderForest

  /** The white space that JavaScript's `trim` removes. */
  predicate IsJsSpace(c: char) {
    var n := c as int;
    9 <= n <= 13 || n == 0x20 || n == 0xA0 || n == 0x1680 || 0x2000 <= n <= 0x200A
    || n == 0x2028 || n == 0x2029 || n == 0x202F || n == 0x205F || n == 0x3000 || n == 0xFEFF
  }

  /** The form in which sibling names are compared; `lower` is `toLowerCase`. */
  function NameKey(name: string, lower: string -> string): string { lower(Trim(name, IsJsSpace)) }

  predicate Clashes(f: Folder, workspace: string, parent: Option<string>, name: string, except: Option<string>, lower: string -> string) {
    f.workspace == workspace && f.parent == parent && Some(f.id) != except && NameKey(f.name, lower) == NameKey(name, lower)
  }

  predicate Taken(folders: seq<Folder>, workspace: string, parent: Option<string>, name: string, except: Option<string>,
                  lower: string -> string) {
    exists f :: f in folders && Clashes(f, workspace, parent, name, except, lower)
  }

  // ---------------------------------------------------------------- the invariant

  /** No two folders in one place have names that compare equal. */
  ghost predicate SiblingsDiffer(folders: seq<Folder>, lower: string -> string) {
    forall f, g :: f in folders && g in folders && f.id != g.id ==> !Clashes(f, g.workspace, g.parent, g.name, Some(g.id), lower)
  }

  ghost predicate PlacedInFolders(folders: seq<Folder>, placements: map<string, string>) {
    forall a :: a in placements ==> Find(folders, placements[a]).Some?
  }

  ghost predicate Forest(folders: seq<Folder>) { DistinctIds(folders) && ParentsExist(folders) && Rooted(folders) }

  ghost predicate Sound(folders: seq<Folder>, placements: map<string, string>, lower: string -> string) {
    Forest(folders) && SiblingsDiffer(folders, lower) && PlacedInFolders(folders, placements)
  }

  // ---------------------------------------------------------------- each change keeps it

  lemma {:induction false} TrimmedKey(name: string, lower: string -> string)
    ensures NameKey(Trim(name, IsJsSpace), lower) == NameKey(name, lower)
  {
    TrimFixesClean(name, IsJsSpace);
  }

  lemma {:induction false} AddKeeps(folders: seq<Folder>, placements: map<string, string>, f: Folder, name: string, lower: string -> string)
    requires Sound(folders, placements, lower) && Find(folders, f.id).None?
    requires f.parent.Some? ==> Find(folders, f.parent.value).Some?
    requires f.name == Trim(name, IsJsSpace) && !Taken(folders, f.workspace, f.parent, name, None, lower)
    ensures Sound(folders + [f], placements, lower)
  {
    Appended(folders, f);
    AddStaysRooted(folders, f);
    TrimmedKey(name, lower);
    forall g | g in folders
      ensures !Clashes(g, f.workspace, f.parent, f.name, Some(f.id), lower)
      ensures !Clashes(f, g.workspace, g.parent, g.name, Some(g.id), lower)
    {
      assert !Clashes(g, f.workspace, f.parent, name, None, lower);
    }
  }

  /** Replacing folder `i` by `f` keeps siblings apart if `f` clashes with no other folder. */
  lemma {:induction false} ReplaceKeepsSiblings(folders: seq<Folder>, i: nat, f: Folder, name: string, lower: string -> string)
    requires DistinctIds(folders) && SiblingsDiffer(folders, lower) && i < |folders| && f.id == folders[i].id
    requires NameKey(f.name, lower) == NameKey(name, lower) && !Taken(folders, f.workspace, f.parent, name, Some(f.id), lower)
    ensures SiblingsDiffer(folders[i := f], lower)
  {
    var after := folders[i := f];
    forall g, h | g in after && h in after && g.id != h.id ensures !Clashes(g, h.workspace, h.parent, h.name, Some(h.id), lower) {
      var j :| 0 <= j < |after| && after[j] == g;
      var k :| 0 <= k < |after| && after[k] == h;
      assert folders[j] in folders && folders[k] in folders;
      if k == i {
        assert !Clashes(folders[j], f.workspace, f.parent, name, Some(f.id), lower);
      } else if j == i {
        assert !Clashes(folders[k], f.workspace, f.parent, name, Some(f.id), lower);
      }
    }
  }

  lemma {:induction false} MoveKeeps(folders: seq<Folder>, placements: map<string, string>, i: nat,
                                     parent: Option<string>, lower: string -> string)
    requires Sound(folders, placements, lower) && i < |folders|
    requires parent.Some? ==> Find(folders, parent.value).Some? && !Inside(folders, folders[i].id, parent.value)
    requires !Taken(folders, folders[i].workspace, parent, folders[i].name, Some(folders[i].id), lower)
    ensures Sound(folders[i := folders[i].(parent := parent)], placements, lower)
  {
    var f := folders[i].(parent := parent);
    Replaced(folders, i, f);
    MoveStaysRooted(folders, i, parent);
    ReplaceKeepsSiblings(folders, i, f, f.name, lower);
    ReplaceKeepsParents(folders, i, f);
  }

  lemma {:induction false} ReplaceKeepsParents(folders: seq<Folder>, i: nat, f: Folder)
    requires DistinctIds(folders) && ParentsExist(folders) && i < |folders| && f.id == folders[i].id
    requires f.parent.Some? ==> Find(folders, f.parent.value).Some?
    ensures ParentsExist(folders[i := f])
  {
    Replaced(folders, i, f);
    forall g | g in folders[i := f] && g.parent.Some? ensures Find(folders[i := f], g.parent.value).Some? {
      var j :| 0 <= j < |folders| && folders[i := f][j] == g;
      assert folders[j] in folders;
    }
  }

  lemma {:induction false} RenameKeeps(folders: seq<Folder>, placements: map<string, string>, i: nat, name: string, lower: string -> string)
    requires Sound(folders, placements, lower) && i < |folders|
    requires !Taken(folders, folders[i].workspace, folders[i].parent, name, Some(folders[i].id), lower)
    ensures Sound(folders[i := folders[i].(name := Trim(name, IsJsSpace))], placements, lower)
  {
    var f := folders[i].(name := Trim(name, IsJsSpace));
    Replaced(folders, i, f);
    RenameStaysRooted(folders, i, f.name);
    TrimmedKey(name, lower);
    ReplaceKeepsSiblings(folders, i, f, name, lower);
    assert folders[i] in folders;
    ReplaceKeepsParents(folders, i, f);
  }

  predicate HoldsFolders(folders: seq<Folder>, id: string) { exists f :: f in folders && f.parent == Some(id) }

  predicate HoldsArtifacts(placements: map<string, string>, id: string) { exists a :: a in placements && placements[a] == id }

  lemma {:induction false} RemoveKeeps(folders: seq<Folder>, placements: map<string, string>, id: string, lower: string -> string)
    requires Sound(folders, placements, lower)
    requires !HoldsFolders(folders, id) && !HoldsArtifacts(placements, id)
    ensures Sound(Without(folders, id), placements, lower)
  {
    var after := Without(folders, id);
    WithoutDistinct(folders, id);
    RemoveStaysRooted(folders, id);
    forall x: string ensures x != id ==> Find(after, x) == Find(folders, x) { WithoutFinds(folders, id, x); }
  }

  // ---------------------------------------------------------------- the routes

  datatype Reply = Done | NotFound | NameConflict | NotEmpty | Cycle | InUse

  function Place(placements: map<string, string>, artifacts: seq<string>, folder: Option<string>): map<string, string> {
    if artifacts == [] then placements
    else
      var before := Place(placements, artifacts[..|artifacts| - 1], folder);
      if folder.None? then before - {artifacts[|artifacts| - 1]} else before[artifacts[|artifacts| - 1] := folder.value]
  }

  /** The last word about an artifact named in the request is the requested folder. */
  lemma {:induction false} PlaceExact(placements: map<string, string>, artifacts: seq<string>, folder: Option<string>, a: string)
    ensures var after := Place(placements, artifacts, folder);
            if a in artifacts then (if folder.Some? then a in after && after[a] == folder.value else a !in after)
            else (a in after <==> a in placements) && (a in after ==> after[a] == placements[a])
  {
    if artifacts != [] {
      var front := artifacts[..|artifacts| - 1];
      assert artifacts == front + [artifacts[|artifacts| - 1]];
      PlaceExact(placements, front, folder, a);
    }
  }

  lemma {:induction false} PlaceKeeps(folders: seq<Folder>, placements: map<string, string>, artifacts: seq<string>, folder: Option<string>)
    requires PlacedInFolders(folders, placements) && (folder.Some? ==> Find(folders, folder.value).Some?)
    ensures PlacedInFolders(folders, Place(placements, artifacts, folder))
  {
    forall a | a in Place(placements, artifacts, folder) ensures Find(folders, Place(placements, artifacts, folder)[a]).Some? {
      PlaceExact(placements, artifacts, folder, a);
    }
  }

  method IndexOf(folders: seq<Folder>, id: string) returns (r: Option<nat>)
    ensures r.Some? <==> Find(folders, id).Some?
    ensures r.Some? ==> r.value < |folders| && folders[r.value].id == id
  {
    for i := 0 to |folders|
      invariant forall j :: 0 <= j < i ==> folders[j].id != id
    {
      if folders[i].id == id {
        assert folders[i] in folders;
        return Some(i);
      }
    }
    return None;
  }

  class LibraryState {
    var folders: seq<Folder>
    var placements: map<string, string>
    var artifacts: set<string>
    const referenced: string
    const lower: string -> string

    ghost predicate Valid()
      reads this
    {
      Sound(folders, placements, lower)
    }

    constructor (artifacts: set<string>, referenced: string, lower: string -> string)
      ensures Valid() && folders == [] && placements == map[] && this.artifacts == artifacts
    {
      this.artifacts, this.referenced, this.lower := artifacts, referenced, lower;
      folders, placements := [], map[];
    }

    /** `id` is the freshly drawn identifier. */
    method Create(workspace: string, name: string, parent: Option<string>, id: string) returns (r: Reply)
      requires Valid() && Find(folders, id).None?
      modifies this`folders
      ensures Valid()
      ensures r == NotFound <==> parent.Some? && Find(old(folders), parent.value).None?
      ensures r == NameConflict <==> r != NotFound && Taken(old(folders), workspace, parent, name, None, lower)
      ensures r in {Done, NotFound, NameConflict}
      ensures folders == if r.Done? then old(folders) + [Folder(id, workspace, parent, Trim(name, IsJsSpace))] else old(folders)
    {
      if parent.Some? && Find(folders, parent.value).None? {
        return NotFound;
      }
      if Taken(folders, workspace, parent, name, None, lower) {
        return NameConflict;
      }
      var folder := Folder(id, workspace, parent, Trim(name, IsJsSpace));
      AddKeeps(folders, placements, folder, name, lower);
      folders := folders + [folder];
      return Done;
    }

    /** The cycle refusal is exactly: the new parent is the folder or lies below it. */
    method Move(id: string, parent: Option<string>) returns (r: Reply)
      requires Valid()
      modifies this`folders
      ensures Valid()
      ensures r == NotFound <==> Find(old(folders), id).None? || (parent.Some? && Find(old(folders), parent.value).None?)
      ensures r == Cycle <==> r != NotFound && parent.Some? && Inside(old(folders), id, parent.value)
      ensures r in {Done, NotFound, Cycle, NameConflict}
      ensures r == NameConflict <==>
                && r != NotFound && r != Cycle
                && Taken(old(folders), Find(old(folders), id).value.workspace, parent, Find(old(folders), id).value.name, Some(id), lower)
      ensures !r.Done? ==> folders == old(folders)
      ensures r.Done? ==> Find(folders, id) == Some(Find(old(folders), id).value.(parent := parent))
      ensures r.Done? ==> forall x :: x != id ==> Find(folders, x) == Find(old(folders), x)
    {
      var at := IndexOf(folders, id);
      if at.None? {
        return NotFound;
      }
      var folder := folders[at.value];
      if parent.Some? && Find(folders, parent.value).None? {
        return NotFound;
      }
      if parent.Some? {
        var inside := IsInside(folders, folder.id, parent.value);
        if inside {
          return Cycle;
        }
      }
      FindUnique(folders, folder);
      if Taken(folders, folder.workspace, parent, folder.name, Some(folder.id), lower) {
        return NameConflict;
      }
      MoveKeeps(folders, placements, at.value, parent, lower);
      Replaced(folders, at.value, folder.(parent := parent));
      folders := folders[at.value := folder.(parent := parent)];
      return Done;
    }

    method Rename(id: string, name: string) returns (r: Reply)
      requires Valid()
      modifies this`folders
      ensures Valid()
      ensures r == NotFound <==> Find(old(folders), id).None?
      ensures r in {Done, NotFound, NameConflict}
      ensures r == NameConflict <==>
                && r != NotFound
                && Taken(old(folders), Find(old(folders), id).value.workspace, Find(old(folders), id).value.parent, name, Some(id), lower)
      ensures !r.Done? ==> folders == old(folders)
      ensures r.Done? ==> Find(folders, id) == Some(Find(old(folders), id).value.(name := Trim(name, IsJsSpace)))
      ensures r.Done? ==> forall x :: x != id ==> Find(folders, x) == Find(old(folders), x)
    {
      var at := IndexOf(folders, id);
      if at.None? {
        return NotFound;
      }
      var folder := folders[at.value];
      FindUnique(folders, folder);
      if Taken(folders, folder.workspace, folder.parent, name, Some(folder.id), lower) {
        return NameConflict;
      }
      RenameKeeps(folders, placements, at.value, name, lower);
      Replaced(folders, at.value, folder.(name := Trim(name, IsJsSpace)));
      folders := folders[at.value := folder.(name := Trim(name, IsJsSpace))];
      return Done;
    }

    method Delete(id: string) returns (r: Reply)
      requires Valid()
      modifies this`folders
      ensures Valid()
      ensures r == NotFound <==> Find(old(folders), id).None?
      ensures r == NotEmpty <==> r != NotFound && (HoldsFolders(old(folders), id) || HoldsArtifacts(placements, id))
      ensures r in {Done, NotFound, NotEmpty}
      ensures folders == if r.Done? then Without(old(folders), id) else old(folders)
    {
      if Find(folders, id).None? {
        return NotFound;
      }
      if HoldsFolders(folders, id) || HoldsArtifacts(placements, id) {
        return NotEmpty;
      }
      RemoveKeeps(folders, placements, id, lower);
      folders := Without(folders, id);
      return Done;
    }

    /** All artifacts are known, or nothing is placed. */
    method PlaceArtifacts(ids: seq<string>, folder: Option<string>) returns (r: Reply)
      requires Valid()
      modifies this`placements
      ensures Valid()
      ensures r == Done <==> (folder.None? || Find(folders, folder.value).Some?) && forall a :: a in ids ==> a in artifacts
      ensures r in {Done, NotFound}
      ensures placements == if r.Done? then Place(old(placements), ids, folder) else old(placements)
    {
      if folder.Some? && Find(folders, folder.value).None? {
        return NotFound;
      }
      for i := 0 to |ids|
        invariant forall j :: 0 <= j < i ==> ids[j] in artifacts
      {
        if ids[i] !in artifacts {
          return NotFound;
        }
      }
      ghost var before := placements;
      for i := 0 to |ids|
        invariant placements == Place(before, ids[..i], folder)
      {
        assert ids[..i + 1][..i] == ids[..i];
        if folder.None? {
          placements := placements - {ids[i]};
        } else {
          placements := placements[ids[i] := folder.value];
        }
      }
      assert ids[..|ids|] == ids;
      PlaceKeeps(folders, before, ids, folder);
      return Done;
    }

    method DeleteArtifact(id: string) returns (r: Reply)
      requires Valid()
      modifies this`placements, this`artifacts
      ensures Valid()
      ensures r == if id !in old(artifacts) then NotFound else if id == referenced then InUse else Done
      ensures artifacts == if r.Done? then old(artifacts) - {id} else old(artifacts)
      ensures placements == if r.Done? then old(placements) - {id} else old(placements)
    {
      if id !in artifacts {
        return NotFound;
      }
      if id == referenced {
        return InUse;
      }
      artifacts := artifacts - {id};
      placements := placements - {id};
      return Done;
    }
  }
}
