/** JSON collections stored in chunks (libs/core/src/grafy_core/artifact_collections.py). */
module CollectionModel {
  import opened Text
  import opened Artifacts
  import opened Json

  // ---------------------------------------------------------------- documents

  datatype Collection = Collection(id: string, items: seq<Fields>, metadata: Fields)

  datatype Chunk = Chunk(collectionId: string, offset: int, items: seq<Fields>)

  datatype ChunkRef = ChunkRef(offset: nat, count: nat, path: string, size: nat, digest: string)

  datatype Descriptor = Descriptor(id: string, count: nat, chunks: seq<ChunkRef>, metadata: Fields)

  datatype Manifest = Manifest(total: nat, collections: seq<Descriptor>, metadata: Fields)

  /** Each chunk starts where the one before it ended. */
  predicate Tiles(chunks: seq<ChunkRef>, from: nat, to: nat) {
    if chunks == [] then from == to
    else chunks[0].offset == from && Tiles(chunks[1..], from + chunks[0].count, to)
  }

  predicate IsDigest(s: string) { |s| == 64 && forall c :: c in s ==> c in "0123456789abcdef" }

  predicate ValidRef(ref: ChunkRef) { ref.count >= 1 && ref.path != "" && IsDigest(ref.digest) }

  predicate ValidDescriptor(d: Descriptor) {
    d.id != "" && (forall ref :: ref in d.chunks ==> ValidRef(ref)) && Tiles(d.chunks, 0, d.count)
  }

  function TotalItems(ds: seq<Descriptor>): nat {
    if ds == [] then 0 else ds[0].count + TotalItems(ds[1..])
  }

  predicate UniqueIds(ids: seq<string>) { forall i, j :: 0 <= i < j < |ids| ==> ids[i] != ids[j] }

  function Ids(ds: seq<Descriptor>): seq<string> { seq(|ds|, i requires 0 <= i < |ds| => ds[i].id) }

  predicate ValidManifest(m: Manifest) {
    && (forall d :: d in m.collections ==> ValidDescriptor(d))
    && UniqueIds(Ids(m.collections))
    && TotalItems(m.collections) == m.total
  }

  // ---------------------------------------------------------------- the codec

  /** JSON encoding, validating JSON decoding and SHA-256. `plain` holds of the objects JSON
      can express; a value such as NaN does not survive the encoding. */
  datatype Codec = Codec(
    chunkBytes: Chunk -> Bytes, readChunk: Bytes -> Option<Chunk>,
    manifestBytes: Manifest -> Bytes, readManifest: Bytes -> Option<Manifest>,
    digest: Bytes -> string, itemSize: Fields -> nat, plain: Fields -> bool)

  ghost predicate PlainChunk(codec: Codec, c: Chunk) {
    c.collectionId != "" && c.offset >= 0 && forall item :: item in c.items ==> codec.plain(item)
  }

  ghost predicate PlainManifest(codec: Codec, m: Manifest) {
    ValidManifest(m) && codec.plain(m.metadata) && forall d :: d in m.collections ==> codec.plain(d.metadata)
  }

  /** What the model takes from the encoder, the validators and the digest. */
  ghost predicate Faithful(codec: Codec) {
    && (forall c :: PlainChunk(codec, c) ==> codec.readChunk(codec.chunkBytes(c)) == Some(c))
    && (forall m :: PlainManifest(codec, m) ==> codec.readManifest(codec.manifestBytes(m)) == Some(m))
    && (forall b :: codec.readManifest(b).Some? ==> ValidManifest(codec.readManifest(b).value))
    && Digests(codec)
  }

  ghost predicate Digests(codec: Codec) { forall b :: IsDigest(codec.digest(b)) }

  // ---------------------------------------------------------------- objects

  /** A bucket and a path. */
  type Key = (string, string)

  type Objects = map<Key, Bytes>

  datatype ReadError = NotAddressed | BadMetadata | Missing | WrongSize | WrongDigest | Malformed | NotAsDescribed

  function LoadBytes(objects: Objects, codec: Codec, key: Key, size: Option<int>, digest: Option<string>): Result<Bytes, ReadError> {
    if key !in objects then Err(Missing)
    else if size.Some? && |objects[key]| != size.value then Err(WrongSize)
    else if digest.Some? && codec.digest(objects[key]) != digest.value then Err(WrongDigest)
    else Ok(objects[key])
  }

  datatype Artifact = Artifact(bucket: Option<string>, path: Option<string>, metadata: Fields)

  /** A JSON null reads like an absent key. */
  function Get(metadata: Fields, key: string): Option<Value> {
    if key in metadata && metadata[key] != Null then Some(metadata[key]) else None
  }

  function ExpectedSize(metadata: Fields): Result<Option<int>, ReadError> {
    var field := Get(metadata, "manifest_byte_size");
    if field.None? then Ok(None)
    else if field.value.Int? && field.value.whole >= 0 then Ok(Some(field.value.whole))
    else Err(BadMetadata)
  }

  function ExpectedDigest(metadata: Fields): Result<Option<string>, ReadError> {
    var field := Get(metadata, "manifest_sha256");
    if field.None? then Ok(None)
    else if field.value.Text? && IsDigest(field.value.text) then Ok(Some(field.value.text))
    else Err(BadMetadata)
  }

  function LoadManifest(objects: Objects, codec: Codec, a: Artifact): Result<Manifest, ReadError> {
    if a.bucket.None? || a.path.None? then Err(NotAddressed)
    else
      var size, digest := ExpectedSize(a.metadata), ExpectedDigest(a.metadata);
      if size.Err? then Err(size.error)
      else if digest.Err? then Err(digest.error)
      else
        var content := LoadBytes(objects, codec, (a.bucket.value, a.path.value), size.value, digest.value);
        if content.Err? then Err(content.error)
        else if codec.readManifest(content.value).None? then Err(Malformed)
        else Ok(codec.readManifest(content.value).value)
  }

  /** The items of one chunk, once its bytes and its contents agree with the manifest. */
  function LoadChunk(objects: Objects, codec: Codec, bucket: string, id: string, ref: ChunkRef): (r: Result<seq<Fields>, ReadError>)
    ensures r.Ok? ==> |r.value| == ref.count
  {
    var content := LoadBytes(objects, codec, (bucket, ref.path), Some(ref.size), Some(ref.digest));
    if content.Err? then Err(content.error)
    else
      var chunk := codec.readChunk(content.value);
      if chunk.None? then Err(Malformed)
      else if chunk.value.collectionId != id || chunk.value.offset != ref.offset || |chunk.value.items| != ref.count
          then Err(NotAsDescribed)
      else Ok(chunk.value.items)
  }

  // ---------------------------------------------------------------- pages

  datatype CollectionPage = CollectionPage(id: string, offset: nat, total: nat, items: seq<Fields>, metadata: Fields)

  datatype Page = Page(collections: seq<CollectionPage>, offset: nat, total: nat, metadata: Fields)

  datatype PageError = NegativeOffset | BadLimit | Unreadable(cause: ReadError)

  function Max(a: int, b: int): int { if a >= b then a else b }

  /** A global position, seen from a collection of `count` items that starts at `start`. */
  function Local(position: int, start: nat, count: nat): (r: nat)
    ensures r <= count
  {
    Min(count, Max(0, position - start))
  }

  predicate Overlaps(ref: ChunkRef, from: nat, to: nat) { from < ref.offset + ref.count && ref.offset < to }

  /** The part of a chunk that lies in `[from, to)`. */
  function Cut(ref: ChunkRef, items: seq<Fields>, from: nat, to: nat): seq<Fields>
    requires |items| == ref.count && from < to && Overlaps(ref, from, to)
  {
    items[Max(from, ref.offset) - ref.offset..Min(to, ref.offset + ref.count) - ref.offset]
  }

  function ReadRange(objects: Objects, codec: Codec, bucket: string, id: string, refs: seq<ChunkRef>, from: nat,
                     to: nat): Result<seq<Fields>, ReadError>
    requires from < to
  {
    if refs == [] then Ok([])
    else if !Overlaps(refs[0], from, to) then ReadRange(objects, codec, bucket, id, refs[1..], from, to)
    else
      var items := LoadChunk(objects, codec, bucket, id, refs[0]);
      if items.Err? then items
      else
        var rest := ReadRange(objects, codec, bucket, id, refs[1..], from, to);
        if rest.Err? then rest else Ok(Cut(refs[0], items.value, from, to) + rest.value)
  }

  function ReadCollection(objects: Objects, codec: Codec, bucket: string, d: Descriptor, from: nat,
                          to: nat): Result<CollectionPage, ReadError> {
    var items := if from < to then ReadRange(objects, codec, bucket, d.id, d.chunks, from, to) else Ok([]);
    if items.Err? then Err(items.error) else Ok(CollectionPage(d.id, from, d.count, items.value, d.metadata))
  }

  function ReadCollections(objects: Objects, codec: Codec, bucket: string, ds: seq<Descriptor>, start: nat, from: nat,
                           to: nat): Result<seq<CollectionPage>, ReadError> {
    if ds == [] then Ok([])
    else
      var page := ReadCollection(objects, codec, bucket, ds[0], Local(from, start, ds[0].count), Local(to, start, ds[0].count));
      if page.Err? then Err(page.error)
      else
        var rest := ReadCollections(objects, codec, bucket, ds[1..], start + ds[0].count, from, to);
        if rest.Err? then rest else Ok([page.value] + rest.value)
  }

  function ReadPage(objects: Objects, codec: Codec, a: Artifact, offset: int, limit: int): Result<Page, PageError> {
    if offset < 0 then Err(NegativeOffset)
    else if limit < 1 then Err(BadLimit)
    else
      var m := LoadManifest(objects, codec, a);
      if m.Err? then Err(Unreadable(m.error))
      else
        var from, to := Min(offset, m.value.total), Min(offset + limit, m.value.total);
        var pages := ReadCollections(objects, codec, a.bucket.value, m.value.collections, 0, from, to);
        if pages.Err? then Err(Unreadable(pages.error)) else Ok(Page(pages.value, from, m.value.total, m.value.metadata))
  }

  // ---------------------------------------------------------------- intact artifacts

  ghost predicate IntactCollection(objects: Objects, codec: Codec, bucket: string, d: Descriptor) {
    forall ref :: ref in d.chunks ==> LoadChunk(objects, codec, bucket, d.id, ref).Ok?
  }

  ghost predicate Intact(objects: Objects, codec: Codec, a: Artifact) {
    var m := LoadManifest(objects, codec, a);
    m.Ok? && forall d :: d in m.value.collections ==> IntactCollection(objects, codec, a.bucket.value, d)
  }

  // ---------------------------------------------------------------- reading, as loops

  method LoadRange(objects: Objects, codec: Codec, bucket: string, id: string, refs: seq<ChunkRef>, from: nat, to: nat)
    returns (r: Result<seq<Fields>, ReadError>)
    requires from < to
    ensures r == ReadRange(objects, codec, bucket, id, refs, from, to)
  {
    var items: seq<Fields> := [];
    ghost var whole := ReadRange(objects, codec, bucket, id, refs, from, to);
    for i := 0 to |refs|
      invariant ReadRange(objects, codec, bucket, id, refs[i..], from, to).Ok? <==> whole.Ok?
      invariant whole.Err? ==> ReadRange(objects, codec, bucket, id, refs[i..], from, to) == whole
      invariant whole.Ok? ==> whole.value == items + ReadRange(objects, codec, bucket, id, refs[i..], from, to).value
    {
      var ref := refs[i];
      assert refs[i..][1..] == refs[i + 1..];
      if ref.offset + ref.count <= from || ref.offset >= to {
        continue;
      }
      var chunk := LoadChunk(objects, codec, bucket, id, ref);
      if chunk.Err? {
        return chunk;
      }
      ghost var rest := ReadRange(objects, codec, bucket, id, refs[i + 1..], from, to);
      if rest.Ok? {
        assert items + (Cut(ref, chunk.value, from, to) + rest.value) == (items + Cut(ref, chunk.value, from, to)) + rest.value;
      }
      items := items + chunk.value[Max(from, ref.offset) - ref.offset..Min(to, ref.offset + ref.count) - ref.offset];
    }
    assert items + [] == items;
    return Ok(items);
  }

  method LoadCollection(objects: Objects, codec: Codec, bucket: string, d: Descriptor, from: nat, to: nat)
    returns (r: Result<CollectionPage, ReadError>)
    ensures r == ReadCollection(objects, codec, bucket, d, from, to)
  {
    var items: seq<Fields> := [];
    if from < to {
      var range := LoadRange(objects, codec, bucket, d.id, d.chunks, from, to);
      if range.Err? {
        return Err(range.error);
      }
      items := range.value;
    }
    return Ok(CollectionPage(d.id, from, d.count, items, d.metadata));
  }

  method LoadPages(objects: Objects, codec: Codec, bucket: string, ds: seq<Descriptor>, from: nat, to: nat)
    returns (r: Result<seq<CollectionPage>, ReadError>)
    ensures r == ReadCollections(objects, codec, bucket, ds, 0, from, to)
  {
    var pages: seq<CollectionPage> := [];
    var start: nat := 0;
    ghost var whole := ReadCollections(objects, codec, bucket, ds, 0, from, to);
    for i := 0 to |ds|
      invariant ReadCollections(objects, codec, bucket, ds[i..], start, from, to).Ok? <==> whole.Ok?
      invariant whole.Err? ==> ReadCollections(objects, codec, bucket, ds[i..], start, from, to) == whole
      invariant whole.Ok? ==> whole.value == pages + ReadCollections(objects, codec, bucket, ds[i..], start, from, to).value
    {
      var d := ds[i];
      assert ds[i..][1..] == ds[i + 1..];
      var page := LoadCollection(objects, codec, bucket, d, Local(from, start, d.count), Local(to, start, d.count));
      if page.Err? {
        return Err(page.error);
      }
      ghost var rest := ReadCollections(objects, codec, bucket, ds[i + 1..], start + d.count, from, to);
      if rest.Ok? { assert pages + ([page.value] + rest.value) == (pages + [page.value]) + rest.value; }
      pages := pages + [page.value];
      start := start + d.count;
    }
    assert pages + [] == pages;
    return Ok(pages);
  }

  /** The page request of the source. */
  method LoadPage(objects: Objects, codec: Codec, a: Artifact, offset: int, limit: int) returns (r: Result<Page, PageError>)
    ensures r == ReadPage(objects, codec, a, offset, limit)
  {
    if offset < 0 {
      return Err(NegativeOffset);
    }
    if limit < 1 {
      return Err(BadLimit);
    }
    if a.bucket.None? {
      return Err(Unreadable(NotAddressed));
    }
    var m := LoadManifest(objects, codec, a);
    if m.Err? {
      return Err(Unreadable(m.error));
    }
    var from, to := Min(offset, m.value.total), Min(offset + limit, m.value.total);
    var pages := LoadPages(objects, codec, a.bucket.value, m.value.collections, from, to);
    if pages.Err? {
      return Err(Unreadable(pages.error));
    }
    return Ok(Page(pages.value, from, m.value.total, m.value.metadata));
  }

  method ChunksIntact(objects: Objects, codec: Codec, bucket: string, d: Descriptor) returns (ok: bool)
    ensures ok <==> IntactCollection(objects, codec, bucket, d)
  {
    for i := 0 to |d.chunks|
      invariant forall j :: 0 <= j < i ==> LoadChunk(objects, codec, bucket, d.id, d.chunks[j]).Ok?
    {
      if (bucket, d.chunks[i].path) !in objects {
        assert LoadChunk(objects, codec, bucket, d.id, d.chunks[i]).Err?;
        return false;
      }
      var chunk := LoadChunk(objects, codec, bucket, d.id, d.chunks[i]);
      if chunk.Err? {
        return false;
      }
    }
    return true;
  }

  method IsIntact(objects: Objects, codec: Codec, a: Artifact) returns (ok: bool)
    ensures ok <==> Intact(objects, codec, a)
  {
    if a.bucket.None? || a.path.None? {
      return false;
    }
    if (a.bucket.value, a.path.value) !in objects {
      return false;
    }
    var m := LoadManifest(objects, codec, a);
    if m.Err? {
      return false;
    }
    for i := 0 to |m.value.collections|
      invariant forall j :: 0 <= j < i ==> IntactCollection(objects, codec, a.bucket.value, m.value.collections[j])
    {
      ok := ChunksIntact(objects, codec, a.bucket.value, m.value.collections[i]);
      if !ok {
        return;
      }
    }
    return true;
  }
}
