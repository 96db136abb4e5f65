/** Saving collections under the digest of their bytes, and reading them back. */
module CollectionStore {
  import opened Text
  import opened Artifacts
  import opened Json
  import opened CollectionModel
  import opened CollectionPages
  import opened CollectionPacking

  // ---------------------------------------------------------------- writes

  datatype Write = Write(key: Key, content: Bytes)

  function PutAll(objects: Objects, writes: seq<Write>): Objects {
    if writes == [] then objects
    else
      var last := writes[|writes| - 1];
      PutAll(objects, writes[..|writes| - 1])[last.key := last.content]
  }

  lemma {:induction false} PutOneMore(objects: Objects, writes: seq<Write>, w: Write)
    ensures PutAll(objects, writes + [w]) == PutAll(objects, writes)[w.key := w.content]
  {
    assert (writes + [w])[..|writes|] == writes;
  }

  function Address(folder: string, digest: string): string { folder + digest + ".json" }

  function ChunkPath(folder: string, digest: string): string { Address(folder + "/chunks/", digest) }

  function ManifestPath(folder: string, digest: string): string { Address(folder + "/manifests/", digest) }

  /** The path ends in the digest of the bytes under it. */
  ghost predicate Addressed(codec: Codec, w: Write) {
    exists folder :: w.key.1 == Address(folder, codec.digest(w.content))
  }

  /** No two of these contents share a digest. */
  ghost predicate CollisionFree(codec: Codec, writes: seq<Write>) {
    forall v, w :: v in writes && w in writes && codec.digest(v.content) == codec.digest(w.content) ==> v.content == w.content
  }

  ghost predicate Present(objects: Objects, writes: seq<Write>) {
    forall w :: w in writes ==> w.key in objects && objects[w.key] == w.content
  }

  lemma {:induction false} AddressTellsDigest(a: string, d: string, b: string, e: string)
    requires |d| == |e| && Address(a, d) == Address(b, e)
    ensures d == e
  {
    assert |a| == |b|;
    assert Address(a, d)[|a|..|a| + |d|] == d && Address(b, e)[|b|..|b| + |e|] == e;
  }

  /** Two writes under one key write the same bytes. */
  lemma {:induction false} SameKeySameBytes(codec: Codec, writes: seq<Write>, v: Write, w: Write)
    requires CollisionFree(codec, writes) && v in writes && w in writes && v.key == w.key
    requires |codec.digest(v.content)| == |codec.digest(w.content)| && Addressed(codec, v) && Addressed(codec, w)
    ensures v.content == w.content
  {
    var a :| v.key.1 == Address(a, codec.digest(v.content));
    var b :| w.key.1 == Address(b, codec.digest(w.content));
    AddressTellsDigest(a, codec.digest(v.content), b, codec.digest(w.content));
  }

  lemma {:induction false} LastWriteStays(objects: Objects, writes: seq<Write>, w: Write)
    requires w in writes && forall v :: v in writes && v.key == w.key ==> v.content == w.content
    ensures w.key in PutAll(objects, writes) && PutAll(objects, writes)[w.key] == w.content
  {
    var init := writes[..|writes| - 1];
    assert writes == init + [writes[|writes| - 1]];
    if writes[|writes| - 1].key != w.key { LastWriteStays(objects, init, w); }
  }

  /** Overwriting never changes what an earlier save stored. */
  lemma {:induction false} WritesStay(objects: Objects, codec: Codec, writes: seq<Write>)
    requires Faithful(codec) && CollisionFree(codec, writes) && forall w :: w in writes ==> Addressed(codec, w)
    ensures Present(PutAll(objects, writes), writes)
  {
    forall w | w in writes ensures w.key in PutAll(objects, writes) && PutAll(objects, writes)[w.key] == w.content {
      forall v | v in writes && v.key == w.key ensures v.content == w.content {
        assert IsDigest(codec.digest(v.content)) && IsDigest(codec.digest(w.content));
        SameKeySameBytes(codec, writes, v, w);
      }
      LastWriteStays(objects, writes, w);
    }
  }

  // ---------------------------------------------------------------- what a save records

  datatype Stored = Stored(bucket: string, path: string, size: nat, digest: string, storageSize: nat, total: nat)

  function ChunkOf(c: Collection, ref: ChunkRef): Chunk
    requires ref.offset + ref.count <= |c.items|
  {
    Chunk(c.id, ref.offset, c.items[ref.offset..ref.offset + ref.count])
  }

  ghost predicate Recorded(writes: seq<Write>, codec: Codec, bucket: string, c: Collection, ref: ChunkRef) {
    && ValidRef(ref) && Greedy(codec.itemSize, c.items, ref.offset, ref.offset + ref.count)
    && var content := codec.chunkBytes(ChunkOf(c, ref));
       Write((bucket, ref.path), content) in writes && ref.size == |content| && ref.digest == codec.digest(content)
  }

  ghost predicate Describes(writes: seq<Write>, codec: Codec, bucket: string, c: Collection, d: Descriptor) {
    && d.id == c.id && d.count == |c.items| && d.metadata == c.metadata && Tiles(d.chunks, 0, d.count)
    && forall ref :: ref in d.chunks ==> Recorded(writes, codec, bucket, c, ref)
  }

  ghost predicate DescribesAll(writes: seq<Write>, codec: Codec, bucket: string, cs: seq<Collection>, ds: seq<Descriptor>) {
    |ds| == |cs| && forall i {:trigger Describes(writes, codec, bucket, cs[i], ds[i])} ::
        0 <= i < |cs| ==> Describes(writes, codec, bucket, cs[i], ds[i])
  }

  function RefSizes(refs: seq<ChunkRef>): nat { if refs == [] then 0 else RefSizes(refs[..|refs| - 1]) + refs[|refs| - 1].size }

  function AllSizes(ds: seq<Descriptor>): nat { if ds == [] then 0 else AllSizes(ds[..|ds| - 1]) + RefSizes(ds[|ds| - 1].chunks) }

  ghost predicate SavedAs(writes: seq<Write>, codec: Codec, stored: Stored, cs: seq<Collection>, metadata: Fields, m: Manifest) {
    && ValidManifest(m) && m.metadata == metadata && stored.total == m.total
    && DescribesAll(writes, codec, stored.bucket, cs, m.collections)
    && Write((stored.bucket, stored.path), codec.manifestBytes(m)) in writes
    && stored.size == |codec.manifestBytes(m)| && stored.digest == codec.digest(codec.manifestBytes(m))
    && stored.storageSize == AllSizes(m.collections) + stored.size
  }

  ghost predicate Saved(writes: seq<Write>, codec: Codec, stored: Stored, cs: seq<Collection>, metadata: Fields) {
    exists m :: SavedAs(writes, codec, stored, cs, metadata, m)
  }

  // ---------------------------------------------------------------- as few chunks as possible

  /** Where the chunks begin, and where the last one ends. */
  ghost function Cuts(refs: seq<ChunkRef>, from: nat): seq<nat> {
    if refs == [] then [from] else [from] + Cuts(refs[1..], from + refs[0].count)
  }

  lemma {:induction false} CutsAreGreedy(size: Fields -> nat, items: seq<Fields>, refs: seq<ChunkRef>, from: nat)
    requires Tiles(refs, from, |items|) && forall ref :: ref in refs ==> Greedy(size, items, ref.offset, ref.offset + ref.count)
    ensures var cuts := Cuts(refs, from);
            && |cuts| == |refs| + 1 && cuts[0] == from && cuts[|refs|] == |items|
            && forall k :: 0 <= k < |refs| ==> Greedy(size, items, cuts[k], cuts[k + 1])
  {
    if refs != [] {
      var rest := Cuts(refs[1..], from + refs[0].count);
      CutsAreGreedy(size, items, refs[1..], from + refs[0].count);
      assert forall k :: 1 <= k <= |refs| ==> Cuts(refs, from)[k] == rest[k - 1];
    }
  }

  /** No admissible division of a saved collection has fewer chunks than its manifest lists. */
  lemma {:induction false} SavedInFewestChunks(writes: seq<Write>, codec: Codec, stored: Stored, cs: seq<Collection>,
                                               metadata: Fields, m: Manifest, i: nat, other: seq<nat>)
    requires SavedAs(writes, codec, stored, cs, metadata, m) && i < |cs| && Divides(codec.itemSize, cs[i].items, other)
    ensures |m.collections[i].chunks| <= |other| - 1
  {
    var d := m.collections[i];
    assert Describes(writes, codec, stored.bucket, cs[i], d);
    forall ref | ref in d.chunks ensures Greedy(codec.itemSize, cs[i].items, ref.offset, ref.offset + ref.count) {
      assert Recorded(writes, codec, stored.bucket, cs[i], ref);
    }
    CutsAreGreedy(codec.itemSize, cs[i].items, d.chunks, 0);
    GreedyIsFewest(codec.itemSize, cs[i].items, Cuts(d.chunks, 0), other);
  }

  // ---------------------------------------------------------------- reading back

  function ItemsOf(cs: seq<Collection>): seq<seq<Fields>> { seq(|cs|, i requires 0 <= i < |cs| => cs[i].items) }

  ghost predicate Plain(codec: Codec, cs: seq<Collection>, metadata: Fields) {
    codec.plain(metadata) && forall c :: c in cs ==> PlainCollection(codec, c)
  }

  ghost predicate PlainCollection(codec: Codec, c: Collection) {
    c.id != "" && codec.plain(c.metadata) && forall item :: item in c.items ==> codec.plain(item)
  }

  /** The artifact row names the manifest; its metadata may repeat the size and digest. */
  ghost predicate RefersTo(a: Artifact, stored: Stored) {
    && a.bucket == Some(stored.bucket) && a.path == Some(stored.path)
    && Get(a.metadata, "manifest_byte_size") in {None, Some(Int(stored.size))}
    && Get(a.metadata, "manifest_sha256") in {None, Some(Json.Text(stored.digest))}
  }

  lemma {:induction false} ChunkReadsBack(objects: Objects, codec: Codec, writes: seq<Write>, bucket: string, c: Collection, ref: ChunkRef)
    requires Faithful(codec) && Present(objects, writes) && PlainCollection(codec, c) && Recorded(writes, codec, bucket, c, ref)
    ensures LoadChunk(objects, codec, bucket, c.id, ref) == Ok(c.items[ref.offset..ref.offset + ref.count])
  {
    assert PlainChunk(codec, ChunkOf(c, ref));
    assert Write((bucket, ref.path), codec.chunkBytes(ChunkOf(c, ref))) in writes;
  }

  lemma {:induction false} CollectionReadsBack(objects: Objects, codec: Codec, writes: seq<Write>, bucket: string,
                                               c: Collection, d: Descriptor)
    requires Faithful(codec) && Present(objects, writes) && PlainCollection(codec, c) && Describes(writes, codec, bucket, c, d)
    ensures ServesOne(objects, codec, bucket, d, c.items)
  {
    forall ref | ref in d.chunks
      ensures ref.offset + ref.count <= |c.items|
      ensures LoadChunk(objects, codec, bucket, d.id, ref) == Ok(c.items[ref.offset..ref.offset + ref.count])
    {
      ChunkReadsBack(objects, codec, writes, bucket, c, ref);
    }
  }

  lemma {:induction false} ManifestReadsBack(objects: Objects, codec: Codec, writes: seq<Write>, a: Artifact, stored: Stored, m: Manifest)
    requires Faithful(codec) && Present(objects, writes) && RefersTo(a, stored) && PlainManifest(codec, m)
    requires Write((stored.bucket, stored.path), codec.manifestBytes(m)) in writes
    requires stored.size == |codec.manifestBytes(m)| && stored.digest == codec.digest(codec.manifestBytes(m))
    ensures LoadManifest(objects, codec, a) == Ok(m)
  {
    assert IsDigest(stored.digest);
  }

  /** A saved artifact is served from every store in which its writes are present. */
  lemma {:induction false} SavedIsServed(objects: Objects, codec: Codec, writes: seq<Write>, a: Artifact,
                                         stored: Stored, cs: seq<Collection>, metadata: Fields, m: Manifest)
    requires Faithful(codec) && Present(objects, writes) && RefersTo(a, stored) && Plain(codec, cs, metadata)
    requires SavedAs(writes, codec, stored, cs, metadata, m)
    ensures LoadManifest(objects, codec, a) == Ok(m) && ServesAll(objects, codec, stored.bucket, m, ItemsOf(cs))
    ensures forall i :: 0 <= i < |cs| ==> m.collections[i].id == cs[i].id && m.collections[i].metadata == cs[i].metadata
  {
    var all := ItemsOf(cs);
    forall i | 0 <= i < |cs|
      ensures ServesOne(objects, codec, stored.bucket, m.collections[i], all[i])
      ensures m.collections[i].id == cs[i].id && m.collections[i].metadata == cs[i].metadata
    {
      assert Describes(writes, codec, stored.bucket, cs[i], m.collections[i]);
      assert PlainCollection(codec, cs[i]);
      CollectionReadsBack(objects, codec, writes, stored.bucket, cs[i], m.collections[i]);
    }
    forall d | d in m.collections ensures codec.plain(d.metadata) {
      var i :| 0 <= i < |m.collections| && m.collections[i] == d;
      assert PlainCollection(codec, cs[i]);
    }
    ManifestReadsBack(objects, codec, writes, a, stored, m);
  }

  // ---------------------------------------------------------------- runs of saves

  /** One call of save: what it wrote before it ended, and its result if it succeeded. */
  datatype Outcome = Outcome(writes: seq<Write>, stored: Option<Stored>, collections: seq<Collection>, metadata: Fields)

  ghost predicate Possible(codec: Codec, o: Outcome) {
    && (forall w :: w in o.writes ==> Addressed(codec, w))
    && (o.stored.Some? ==> Saved(o.writes, codec, o.stored.value, o.collections, o.metadata))
  }

  /** `writes` is what the store saw of these calls: their writes in any interleaving. */
  ghost predicate Mixes(writes: seq<Write>, run: seq<Outcome>) {
    && (forall w :: w in writes ==> exists o :: o in run && w in o.writes)
    && (forall o, w :: o in run && w in o.writes ==> w in writes)
  }

  lemma {:induction false} RunKeepsWrites(objects: Objects, codec: Codec, writes: seq<Write>, run: seq<Outcome>, o: Outcome)
    requires Faithful(codec) && CollisionFree(codec, writes) && Mixes(writes, run)
    requires o in run && forall p :: p in run ==> Possible(codec, p)
    ensures Present(PutAll(objects, writes), o.writes)
  {
    forall w | w in writes ensures Addressed(codec, w) {
      var p :| p in run && w in p.writes;
      assert Possible(codec, p);
    }
    WritesStay(objects, codec, writes);
  }

  /** After any interleaving of saves, failed ones included, every artifact saved on the way
      is intact, and each of its pages shows exactly the window asked for. */
  lemma {:induction false} EveryRunKeepsArtifacts(objects: Objects, codec: Codec, writes: seq<Write>, run: seq<Outcome>,
                                                  o: Outcome, a: Artifact)
    requires Faithful(codec) && CollisionFree(codec, writes) && Mixes(writes, run) && forall p :: p in run ==> Possible(codec, p)
    requires o in run && o.stored.Some? && RefersTo(a, o.stored.value) && Plain(codec, o.collections, o.metadata)
    ensures Intact(PutAll(objects, writes), codec, a)
    ensures forall offset, limit, i :: 0 <= offset && 1 <= limit && 0 <= i < |o.collections| ==>
              PageShows(PutAll(objects, writes), codec, a, o.collections, offset, limit, i)
    ensures forall limit, n, i :: 1 <= limit && 0 <= n && 0 <= i < |o.collections| && PageStart(limit, n) >= o.stored.value.total ==>
              Rebuilt(PutAll(objects, writes), codec, a, limit, n, i) == o.collections[i].items
  {
    RunKeepsWrites(objects, codec, writes, run, o);
    assert Possible(codec, o);
    var m :| SavedAs(o.writes, codec, o.stored.value, o.collections, o.metadata, m);
    PresentIsReadable(PutAll(objects, writes), codec, o.writes, a, o.stored.value, o.collections, o.metadata, m);
  }

  lemma {:induction false} PresentIsReadable(objects: Objects, codec: Codec, writes: seq<Write>, a: Artifact,
                                             stored: Stored, cs: seq<Collection>, metadata: Fields, m: Manifest)
    requires Faithful(codec) && Present(objects, writes) && RefersTo(a, stored) && Plain(codec, cs, metadata)
    requires SavedAs(writes, codec, stored, cs, metadata, m)
    ensures Intact(objects, codec, a)
    ensures forall offset, limit, i :: 0 <= offset && 1 <= limit && 0 <= i < |cs| ==> PageShows(objects, codec, a, cs, offset, limit, i)
    ensures forall limit, n, i :: 1 <= limit && 0 <= n && 0 <= i < |cs| && PageStart(limit, n) >= stored.total ==>
              Rebuilt(objects, codec, a, limit, n, i) == cs[i].items
  {
    SavedIsServed(objects, codec, writes, a, stored, cs, metadata, m);
    ServedIsIntact(objects, codec, a, m, ItemsOf(cs));
    forall offset, limit, i | 0 <= offset && 1 <= limit && 0 <= i < |cs| ensures PageShows(objects, codec, a, cs, offset, limit, i) {
      PageIsWindow(objects, codec, a, m, ItemsOf(cs), offset, limit, i);
    }
    forall limit, n, i | 1 <= limit && 0 <= n && 0 <= i < |cs| && PageStart(limit, n) >= stored.total
      ensures Rebuilt(objects, codec, a, limit, n, i) == cs[i].items
    {
      PagesRebuildAll(objects, codec, a, m, ItemsOf(cs), limit, n, i);
    }
  }

  ghost predicate PageShows(objects: Objects, codec: Codec, a: Artifact, cs: seq<Collection>, offset: nat, limit: nat, i: nat)
    requires i < |cs|
  {
    var r := ReadPage(objects, codec, a, offset, limit);
    && r.Ok? && |r.value.collections| == |cs|
    && r.value.collections[i].id == cs[i].id && r.value.collections[i].metadata == cs[i].metadata
    && Window(r.value.collections[i], cs[i].items, Start(ItemsOf(cs), i), offset, limit)
  }

  lemma {:induction false} ServedIsIntact(objects: Objects, codec: Codec, a: Artifact, m: Manifest, all: seq<seq<Fields>>)
    requires LoadManifest(objects, codec, a) == Ok(m) && ServesAll(objects, codec, a.bucket.value, m, all)
    ensures Intact(objects, codec, a)
  {
    forall d | d in m.collections ensures IntactCollection(objects, codec, a.bucket.value, d) {
      var i :| 0 <= i < |m.collections| && m.collections[i] == d;
      assert ServesOne(objects, codec, a.bucket.value, m.collections[i], all[i]);
    }
  }

  // ---------------------------------------------------------------- saving, as loops

  /** A store whose saves replace whole objects; `fails` says which attempts end in an error. */
  class ObjectStore {
    var objects: Objects
    var attempts: nat
    const fails: nat -> bool
    ghost var writes: seq<Write>
    ghost var failures: nat
    ghost const initial: Objects

    ghost predicate Valid()
      reads this
    {
      objects == PutAll(initial, writes)
    }

    constructor (objects: Objects, fails: nat -> bool)
      ensures Valid() && this.objects == objects && this.fails == fails && writes == [] && failures == 0
    {
      this.objects, this.fails, this.attempts := objects, fails, 0;
      writes, failures, initial := [], 0, objects;
    }

    method Save(key: Key, content: Bytes) returns (ok: bool)
      requires Valid()
      modifies this
      ensures Valid() && ok == !fails(old(attempts)) && attempts == old(attempts) + 1
      ensures writes == if ok then old(writes) + [Write(key, content)] else old(writes)
      ensures failures == if ok then old(failures) else old(failures) + 1
    {
      ok := !fails(attempts);
      attempts := attempts + 1;
      if ok {
        PutOneMore(initial, writes, Write(key, content));
        objects := objects[key := content];
        writes := writes + [Write(key, content)];
      } else {
        failures := failures + 1;
      }
    }
  }

  /** The writes made since the store had `n` of them. */
  ghost predicate Grew(codec: Codec, writes: seq<Write>, before: seq<Write>) {
    |before| <= |writes| && writes[..|before|] == before && forall w :: w in writes[|before|..] ==> Addressed(codec, w)
  }

  lemma {:induction false} GrewByOne(codec: Codec, writes: seq<Write>, before: seq<Write>, w: Write)
    requires Grew(codec, writes, before) && Addressed(codec, w)
    ensures Grew(codec, writes + [w], before) && (writes + [w])[|before|..] == writes[|before|..] + [w]
  {
    assert (writes + [w])[|before|..] == writes[|before|..] + [w];
    assert (writes + [w])[..|before|] == writes[..|before|];
  }

  lemma {:induction false} TilesAppend(refs: seq<ChunkRef>, from: nat, to: nat, ref: ChunkRef)
    requires Tiles(refs, from, to) && ref.offset == to
    ensures Tiles(refs + [ref], from, to + ref.count)
  {
    if refs == [] {
      assert refs + [ref] == [ref] && [ref][1..] == [];
    } else {
      assert (refs + [ref])[1..] == refs[1..] + [ref];
      TilesAppend(refs[1..], from + refs[0].count, to, ref);
    }
  }

  /** Every chunk reference so far is backed by a write made since `before`. */
  ghost predicate Backed(writes: seq<Write>, before: seq<Write>, codec: Codec, bucket: string, c: Collection, refs: seq<ChunkRef>) {
    |before| <= |writes| && forall ref :: ref in refs ==> Recorded(writes[|before|..], codec, bucket, c, ref)
  }

  lemma {:induction false} RecordedStays(a: seq<Write>, b: seq<Write>, codec: Codec, bucket: string, c: Collection, ref: ChunkRef)
    requires Recorded(a, codec, bucket, c, ref) && forall w :: w in a ==> w in b
    ensures Recorded(b, codec, bucket, c, ref)
  {
  }

  lemma {:induction false} BackedByOneMore(writes: seq<Write>, before: seq<Write>, codec: Codec, bucket: string,
                                           c: Collection, refs: seq<ChunkRef>, ref: ChunkRef, w: Write)
    requires Backed(writes, before, codec, bucket, c, refs)
    requires ValidRef(ref) && Greedy(codec.itemSize, c.items, ref.offset, ref.offset + ref.count)
    requires w == Write((bucket, ref.path), codec.chunkBytes(ChunkOf(c, ref))) && ref.size == |w.content|
    requires ref.digest == codec.digest(w.content)
    ensures Backed(writes + [w], before, codec, bucket, c, refs + [ref])
  {
    var a, b := writes[|before|..], (writes + [w])[|before|..];
    assert b == a + [w];
    forall r | r in refs + [ref] ensures Recorded(b, codec, bucket, c, r) {
      if r in refs { RecordedStays(a, b, codec, bucket, c, r); } else { assert w in b; }
    }
  }

  /** Writes one chunk; the reference describes it. */
  method SaveChunk(store: ObjectStore, codec: Codec, bucket: string, folder: string, c: Collection, from: nat, end: nat)
    returns (r: Option<ChunkRef>, ghost w: Write)
    requires store.Valid() && Digests(codec) && Greedy(codec.itemSize, c.items, from, end)
    modifies store
    ensures store.Valid() && Addressed(codec, w)
    ensures store.failures == if r.None? then old(store.failures) + 1 else old(store.failures)
    ensures r.None? ==> store.writes == old(store.writes)
    ensures r.Some? ==> && store.writes == old(store.writes) + [w]
                        && r.value.offset == from && r.value.count == end - from && ValidRef(r.value)
                        && w == Write((bucket, r.value.path), codec.chunkBytes(ChunkOf(c, r.value)))
                        && r.value.size == |w.content| && r.value.digest == codec.digest(w.content)
  {
    var content := codec.chunkBytes(Chunk(c.id, from, c.items[from..end]));
    var digest := codec.digest(content);
    assert IsDigest(digest);
    var path := ChunkPath(folder, digest);
    w := Write((bucket, path), content);
    assert w.key.1 == Address(folder + "/chunks/", codec.digest(w.content));
    var ok := store.Save((bucket, path), content);
    return (if ok then Some(ChunkRef(from, end - from, path, |content|, digest)) else None), w;
  }

  /** The first `offset` items are in chunks, all written since `before`. */
  ghost predicate Chunked(writes: seq<Write>, before: seq<Write>, codec: Codec, bucket: string, c: Collection,
                          refs: seq<ChunkRef>, offset: nat, size: nat) {
    && Grew(codec, writes, before) && Tiles(refs, 0, offset)
    && Backed(writes, before, codec, bucket, c, refs) && size == RefSizes(refs)
  }

  lemma {:induction false} ChunkedOneMore(writes: seq<Write>, before: seq<Write>, codec: Codec, bucket: string,
                                          c: Collection, refs: seq<ChunkRef>, size: nat, ref: ChunkRef, w: Write)
    requires Chunked(writes, before, codec, bucket, c, refs, ref.offset, size) && Addressed(codec, w)
    requires ValidRef(ref) && Greedy(codec.itemSize, c.items, ref.offset, ref.offset + ref.count)
    requires w == Write((bucket, ref.path), codec.chunkBytes(ChunkOf(c, ref))) && ref.size == |w.content|
    requires ref.digest == codec.digest(w.content)
    ensures Chunked(writes + [w], before, codec, bucket, c, refs + [ref], ref.offset + ref.count, size + ref.size)
  {
    GrewByOne(codec, writes, before, w);
    BackedByOneMore(writes, before, codec, bucket, c, refs, ref, w);
    TilesAppend(refs, 0, ref.offset, ref);
    assert (refs + [ref])[..|refs|] == refs;
  }

  method SaveChunks(store: ObjectStore, codec: Codec, bucket: string, folder: string, c: Collection)
    returns (r: Option<seq<ChunkRef>>, size: nat)
    requires store.Valid() && Digests(codec)
    modifies store
    ensures store.Valid() && Grew(codec, store.writes, old(store.writes))
    ensures store.failures == if r.None? then old(store.failures) + 1 else old(store.failures)
    ensures r.Some? ==> Chunked(store.writes, old(store.writes), codec, bucket, c, r.value, |c.items|, size)
  {
    ghost var before := store.writes;
    var refs: seq<ChunkRef> := [];
    var offset: nat := 0;
    size := 0;
    while offset < |c.items|
      invariant offset <= |c.items| && store.Valid() && Chunked(store.writes, before, codec, bucket, c, refs, offset, size)
      invariant store.failures == old(store.failures)
    {
      ghost var writes := store.writes;
      var end := ChunkEnd(codec.itemSize, c.items, offset);
      var ref, w := SaveChunk(store, codec, bucket, folder, c, offset, end);
      if ref.None? {
        return None, 0;
      }
      ChunkedOneMore(writes, before, codec, bucket, c, refs, size, ref.value, w);
      refs := refs + [ref.value];
      size := size + ref.value.size;
      offset := end;
    }
    return Some(refs), size;
  }

  datatype SaveError = DuplicateIds | WriteFailed

  function CollectionIds(cs: seq<Collection>): seq<string> { seq(|cs|, i requires 0 <= i < |cs| => cs[i].id) }

  lemma {:induction false} GrewTwice(codec: Codec, c: seq<Write>, b: seq<Write>, a: seq<Write>)
    requires Grew(codec, c, b) && Grew(codec, b, a)
    ensures Grew(codec, c, a)
    ensures forall w :: w in b[|a|..] ==> w in c[|a|..]
    ensures forall w :: w in c[|b|..] ==> w in c[|a|..]
  {
    assert c[|a|..] == b[|a|..] + c[|b|..];
  }

  lemma {:induction false} DescribesStays(a: seq<Write>, b: seq<Write>, codec: Codec, bucket: string, c: Collection, d: Descriptor)
    requires Describes(a, codec, bucket, c, d) && forall w :: w in a ==> w in b
    ensures Describes(b, codec, bucket, c, d)
  {
    forall ref | ref in d.chunks ensures Recorded(b, codec, bucket, c, ref) { RecordedStays(a, b, codec, bucket, c, ref); }
  }

  lemma {:induction false} DescribesAllStays(a: seq<Write>, b: seq<Write>, codec: Codec, bucket: string,
                                             cs: seq<Collection>, ds: seq<Descriptor>)
    requires DescribesAll(a, codec, bucket, cs, ds) && forall w :: w in a ==> w in b
    ensures DescribesAll(b, codec, bucket, cs, ds)
  {
    forall i | 0 <= i < |cs| ensures Describes(b, codec, bucket, cs[i], ds[i]) {
      assert Describes(a, codec, bucket, cs[i], ds[i]);
      DescribesStays(a, b, codec, bucket, cs[i], ds[i]);
    }
  }

  lemma {:induction false} DescribesOneMore(a: seq<Write>, b: seq<Write>, codec: Codec, bucket: string,
                                            cs: seq<Collection>, ds: seq<Descriptor>, c: Collection, d: Descriptor)
    requires DescribesAll(a, codec, bucket, cs, ds) && (forall w :: w in a ==> w in b) && Describes(b, codec, bucket, c, d)
    ensures DescribesAll(b, codec, bucket, cs + [c], ds + [d])
  {
    DescribesAllStays(a, b, codec, bucket, cs, ds);
    forall i | 0 <= i < |cs| + 1 ensures Describes(b, codec, bucket, (cs + [c])[i], (ds + [d])[i]) {
      if i < |cs| { assert Describes(b, codec, bucket, cs[i], ds[i]); }
    }
  }

  lemma {:induction false} TotalAppend(ds: seq<Descriptor>, d: Descriptor)
    ensures TotalItems(ds + [d]) == TotalItems(ds) + d.count
  {
    if ds == [] {
      assert ds + [d] == [d] && [d][1..] == [];
    } else {
      assert (ds + [d])[1..] == ds[1..] + [d];
      TotalAppend(ds[1..], d);
    }
  }

  /** The manifest built from the descriptors passes its own validators. */
  lemma {:induction false} ManifestIsValid(writes: seq<Write>, codec: Codec, bucket: string, cs: seq<Collection>, m: Manifest)
    requires DescribesAll(writes, codec, bucket, cs, m.collections) && UniqueIds(CollectionIds(cs)) && (forall c :: c in cs ==> c.id != "")
    requires TotalItems(m.collections) == m.total
    ensures ValidManifest(m)
  {
    forall i | 0 <= i < |cs| ensures m.collections[i].id == cs[i].id && ValidDescriptor(m.collections[i]) {
      assert Describes(writes, codec, bucket, cs[i], m.collections[i]);
      forall ref | ref in m.collections[i].chunks ensures ValidRef(ref) {
        assert Recorded(writes, codec, bucket, cs[i], ref);
      }
    }
    assert Ids(m.collections) == CollectionIds(cs);
  }

  method SaveDescriptors(store: ObjectStore, codec: Codec, bucket: string, folder: string, cs: seq<Collection>)
    returns (r: Option<seq<Descriptor>>, size: nat)
    requires store.Valid() && Digests(codec)
    modifies store
    ensures store.Valid() && Grew(codec, store.writes, old(store.writes))
    ensures store.failures == if r.None? then old(store.failures) + 1 else old(store.failures)
    ensures r.Some? ==> DescribesAll(store.writes[|old(store.writes)|..], codec, bucket, cs, r.value) && size == AllSizes(r.value)
  {
    ghost var before := store.writes;
    var ds: seq<Descriptor> := [];
    size := 0;
    for i := 0 to |cs|
      invariant store.Valid() && Grew(codec, store.writes, before)
      invariant store.failures == old(store.failures)
      invariant DescribesAll(store.writes[|before|..], codec, bucket, cs[..i], ds) && size == AllSizes(ds)
    {
      var c := cs[i];
      ghost var writes := store.writes;
      var refs, bytes := SaveChunks(store, codec, bucket, folder, c);
      GrewTwice(codec, store.writes, writes, before);
      if refs.None? {
        return None, 0;
      }
      var d := Descriptor(c.id, |c.items|, refs.value, c.metadata);
      DescribesStays(store.writes[|writes|..], store.writes[|before|..], codec, bucket, c, d);
      DescribesOneMore(writes[|before|..], store.writes[|before|..], codec, bucket, cs[..i], ds, c, d);
      assert cs[..i + 1] == cs[..i] + [c] && (ds + [d])[..|ds|] == ds;
      ds := ds + [d];
      size := size + bytes;
    }
    assert cs[..|cs|] == cs;
    return Some(ds), size;
  }

  method TotalOf(ds: seq<Descriptor>) returns (total: nat)
    ensures total == TotalItems(ds)
  {
    total := 0;
    for i := 0 to |ds|
      invariant total == TotalItems(ds[..i])
    {
      TotalAppend(ds[..i], ds[i]);
      assert ds[..i + 1] == ds[..i] + [ds[i]];
      total := total + ds[i].count;
    }
    assert ds[..|ds|] == ds;
  }

  method SaveManifest(store: ObjectStore, codec: Codec, bucket: string, folder: string, m: Manifest, size: nat)
    returns (r: Option<Stored>, ghost w: Write)
    requires store.Valid() && Digests(codec)
    modifies store
    ensures store.Valid() && Addressed(codec, w) && store.failures == if r.None? then old(store.failures) + 1 else old(store.failures)
    ensures store.writes == if r.Some? then old(store.writes) + [w] else old(store.writes)
    ensures r.Some? ==> w == Write((bucket, r.value.path), codec.manifestBytes(m)) && r.value.bucket == bucket && r.value.total == m.total
    ensures r.Some? ==> r.value.size == |w.content| && r.value.digest == codec.digest(w.content)
    ensures r.Some? ==> r.value.storageSize == size + |w.content|
  {
    var content := codec.manifestBytes(m);
    var digest := codec.digest(content);
    var path := ManifestPath(folder, digest);
    w := Write((bucket, path), content);
    assert w.key.1 == Address(folder + "/manifests/", codec.digest(w.content));
    var ok := store.Save((bucket, path), content);
    return (if ok then Some(Stored(bucket, path, |content|, digest, size + |content|, m.total)) else None), w;
  }

  lemma {:induction false} SavedByOneMore(writes: seq<Write>, codec: Codec, stored: Stored, cs: seq<Collection>,
                                          metadata: Fields, m: Manifest, w: Write)
    requires ValidManifest(m) && m.metadata == metadata && stored.total == m.total
    requires DescribesAll(writes, codec, stored.bucket, cs, m.collections)
    requires w == Write((stored.bucket, stored.path), codec.manifestBytes(m)) && stored.size == |w.content|
    requires stored.digest == codec.digest(w.content)
    requires stored.storageSize == AllSizes(m.collections) + stored.size
    ensures Saved(writes + [w], codec, stored, cs, metadata)
  {
    DescribesAllStays(writes, writes + [w], codec, stored.bucket, cs, m.collections);
    assert SavedAs(writes + [w], codec, stored, cs, metadata, m);
  }

  /** Saving is a possible outcome whether it succeeds or stops at a failed write. */
  method SaveCollections(store: ObjectStore, codec: Codec, bucket: string, folder: string, cs: seq<Collection>, metadata: Fields)
    returns (r: Result<Stored, SaveError>)
    requires store.Valid() && Digests(codec) && forall c :: c in cs ==> c.id != ""
    modifies store
    ensures store.Valid() && Grew(codec, store.writes, old(store.writes))
    ensures r == Err(DuplicateIds) <==> !UniqueIds(CollectionIds(cs))
    ensures r == Err(DuplicateIds) ==> store.writes == old(store.writes)
    ensures r == Err(WriteFailed) <==> store.failures > old(store.failures)
    ensures r.Err? ==> Possible(codec, Outcome(store.writes[|old(store.writes)|..], None, cs, metadata))
    ensures r.Ok? ==> r.value.bucket == bucket && Possible(codec, Outcome(store.writes[|old(store.writes)|..], Some(r.value), cs, metadata))
  {
    ghost var before := store.writes;
    if !UniqueIds(CollectionIds(cs)) {
      return Err(DuplicateIds);
    }
    var ds, size := SaveDescriptors(store, codec, bucket, folder, cs);
    if ds.None? {
      return Err(WriteFailed);
    }
    ghost var writes := store.writes;
    var total := TotalOf(ds.value);
    var m := Manifest(total, ds.value, metadata);
    ManifestIsValid(writes[|before|..], codec, bucket, cs, m);
    var stored, w := SaveManifest(store, codec, bucket, folder, m, size);
    if stored.None? {
      return Err(WriteFailed);
    }
    GrewByOne(codec, writes, before, w);
    SavedByOneMore(writes[|before|..], codec, stored.value, cs, metadata, m, w);
    return Ok(stored.value);
  }
}
