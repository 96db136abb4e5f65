/** Pages are slices of what was stored. */
module CollectionPages {
  import opened Text
  import opened Artifacts
  import opened Json
  import opened CollectionModel

  // ---------------------------------------------------------------- one collection

  lemma {:induction false} TilesBounds(refs: seq<ChunkRef>, from: nat, to: nat)
    requires Tiles(refs, from, to)
    ensures from <= to
    ensures forall ref :: ref in refs ==> from <= ref.offset && ref.offset + ref.count <= to
  {
    if refs != [] { TilesBounds(refs[1..], from + refs[0].count, to); }
  }

  /** Every chunk loads and holds its part of `items`. */
  ghost predicate Serves(objects: Objects, codec: Codec, bucket: string, id: string, refs: seq<ChunkRef>, items: seq<Fields>) {
    forall ref :: ref in refs ==>
      ref.offset + ref.count <= |items| && LoadChunk(objects, codec, bucket, id, ref) == Ok(items[ref.offset..ref.offset + ref.count])
  }

  function Clip(position: nat, low: nat, high: nat): (r: nat)
    requires low <= high
    ensures low <= r <= high
  {
    Min(high, Max(low, position))
  }

  /** The items at positions in `[low, high)` and in `[from, to)`. */
  function Part(items: seq<Fields>, low: nat, high: nat, from: nat, to: nat): seq<Fields>
    requires low <= high <= |items| && from <= to
  {
    items[Clip(from, low, high)..Clip(to, low, high)]
  }

  lemma {:induction false} SliceOfSlice(items: seq<Fields>, a: nat, x: nat, y: nat, b: nat)
    requires a <= x <= y <= b <= |items|
    ensures items[a..b][x - a..y - a] == items[x..y]
  {
    var inner, outer := items[a..b][x - a..y - a], items[x..y];
    assert |inner| == |outer| && forall k :: 0 <= k < |outer| ==> inner[k] == outer[k];
  }

  lemma {:induction false} CutIsPart(ref: ChunkRef, items: seq<Fields>, from: nat, to: nat)
    requires ref.offset + ref.count <= |items| && from < to && Overlaps(ref, from, to)
    ensures Cut(ref, items[ref.offset..ref.offset + ref.count], from, to) == Part(items, ref.offset, ref.offset + ref.count, from, to)
  {
    var low, high := ref.offset, ref.offset + ref.count;
    var x, y := Clip(from, low, high), Clip(to, low, high);
    assert Max(from, low) == x && Min(to, high) == y;
    SliceOfSlice(items, low, x, y, high);
  }

  lemma {:induction false} JoinParts(items: seq<Fields>, low: nat, mid: nat, high: nat, from: nat, to: nat)
    requires low <= mid <= high <= |items| && from < to
    ensures Part(items, low, mid, from, to) + Part(items, mid, high, from, to) == Part(items, low, high, from, to)
  {
    var a, c := Clip(from, low, high), Clip(to, low, high);
    if to <= mid || mid <= from {
      assert items[mid..mid] == [];
    } else {
      assert items[a..mid] + items[mid..c] == items[a..c];
    }
  }

  lemma {:induction false} PartBeyond(ref: ChunkRef, items: seq<Fields>, from: nat, to: nat)
    requires ref.offset + ref.count <= |items| && from < to && !Overlaps(ref, from, to)
    ensures Part(items, ref.offset, ref.offset + ref.count, from, to) == []
  {
  }

  lemma {:induction false} RangeStep(objects: Objects, codec: Codec, bucket: string, id: string, refs: seq<ChunkRef>,
                                     from: nat, to: nat, chunk: seq<Fields>, part: seq<Fields>, rest: seq<Fields>)
    requires refs != [] && from < to && LoadChunk(objects, codec, bucket, id, refs[0]) == Ok(chunk)
    requires if Overlaps(refs[0], from, to) then part == Cut(refs[0], chunk, from, to) else part == []
    requires ReadRange(objects, codec, bucket, id, refs[1..], from, to) == Ok(rest)
    ensures ReadRange(objects, codec, bucket, id, refs, from, to) == Ok(part + rest)
  {
    assert [] + rest == rest;
  }

  lemma {:induction false} RangeGrows(objects: Objects, codec: Codec, bucket: string, id: string, refs: seq<ChunkRef>,
                                      items: seq<Fields>, next: nat, from: nat, to: nat)
    requires refs != [] && from < to && next == refs[0].offset + refs[0].count <= |items|
    requires LoadChunk(objects, codec, bucket, id, refs[0]) == Ok(items[refs[0].offset..next])
    requires ReadRange(objects, codec, bucket, id, refs[1..], from, to) == Ok(Part(items, next, |items|, from, to))
    ensures ReadRange(objects, codec, bucket, id, refs, from, to) == Ok(Part(items, refs[0].offset, |items|, from, to))
  {
    var base := refs[0].offset;
    var part, rest := Part(items, base, next, from, to), Part(items, next, |items|, from, to);
    if Overlaps(refs[0], from, to) { CutIsPart(refs[0], items, from, to); } else { PartBeyond(refs[0], items, from, to); }
    RangeStep(objects, codec, bucket, id, refs, from, to, items[base..next], part, rest);
    JoinParts(items, base, next, |items|, from, to);
  }

  lemma {:induction false} RangeIsPart(objects: Objects, codec: Codec, bucket: string, id: string, refs: seq<ChunkRef>,
                                       items: seq<Fields>, base: nat, from: nat, to: nat)
    requires Tiles(refs, base, |items|) && Serves(objects, codec, bucket, id, refs, items) && from < to && base <= |items|
    ensures ReadRange(objects, codec, bucket, id, refs, from, to) == Ok(Part(items, base, |items|, from, to))
    decreases |refs|
  {
    if refs == [] {
      assert items[|items|..|items|] == [];
    } else {
      var next := base + refs[0].count;
      TilesBounds(refs[1..], next, |items|);
      RangeIsPart(objects, codec, bucket, id, refs[1..], items, next, from, to);
      RangeGrows(objects, codec, bucket, id, refs, items, next, from, to);
    }
  }

  lemma {:induction false} CollectionIsSlice(objects: Objects, codec: Codec, bucket: string, d: Descriptor,
                                             items: seq<Fields>, from: nat, to: nat)
    requires Tiles(d.chunks, 0, d.count) && |items| == d.count && Serves(objects, codec, bucket, d.id, d.chunks, items)
    requires from <= to <= d.count
    ensures ReadCollection(objects, codec, bucket, d, from, to) == Ok(CollectionPage(d.id, from, d.count, items[from..to], d.metadata))
  {
    if from < to {
      RangeIsPart(objects, codec, bucket, d.id, d.chunks, items, 0, from, to);
    } else {
      assert items[from..to] == [];
    }
  }

  // ---------------------------------------------------------------- all collections

  /** The position of the first item of collection `i` in the concatenation of all. */
  function Start(all: seq<seq<Fields>>, i: nat): nat
    requires i <= |all|
  {
    if i == 0 then 0 else Start(all, i - 1) + |all[i - 1]|
  }

  /** The artifact's manifest loads as `m`, and its collections hold `all`. */
  ghost predicate ServesAll(objects: Objects, codec: Codec, bucket: string, m: Manifest, all: seq<seq<Fields>>) {
    ValidManifest(m) && ServesEach(objects, codec, bucket, m.collections, all)
  }

  ghost predicate ServesEach(objects: Objects, codec: Codec, bucket: string, ds: seq<Descriptor>, all: seq<seq<Fields>>) {
    |all| == |ds| && forall i {:trigger ServesOne(objects, codec, bucket, ds[i], all[i])} ::
        0 <= i < |all| ==> ServesOne(objects, codec, bucket, ds[i], all[i])
  }

  ghost predicate ServesOne(objects: Objects, codec: Codec, bucket: string, d: Descriptor, items: seq<Fields>) {
    |items| == d.count && Tiles(d.chunks, 0, d.count) && Serves(objects, codec, bucket, d.id, d.chunks, items)
  }

  lemma {:induction false} StartsAreCounts(all: seq<seq<Fields>>, i: nat, j: nat)
    requires i <= j <= |all|
    ensures Start(all, i) <= Start(all, j)
    ensures i < j ==> Start(all, i) + |all[i]| <= Start(all, j)
  {
    if i < j { StartsAreCounts(all, i, j - 1); }
  }

  lemma {:induction false} TotalIsStart(ds: seq<Descriptor>, all: seq<seq<Fields>>, i: nat)
    requires |all| == |ds| && i <= |ds| && forall j :: 0 <= j < |ds| ==> |all[j]| == ds[j].count
    ensures TotalItems(ds[i..]) == Start(all, |all|) - Start(all, i)
    decreases |ds| - i
  {
    if i < |ds| {
      assert ds[i..][1..] == ds[i + 1..];
      TotalIsStart(ds, all, i + 1);
    }
  }

  function PageAt(d: Descriptor, items: seq<Fields>, start: nat, from: nat, to: nat): CollectionPage
    requires from <= to
  {
    CollectionPage(d.id, Local(from, start, |items|), d.count, items[Local(from, start, |items|)..Local(to, start, |items|)], d.metadata)
  }

  ghost function PagesAt(ds: seq<Descriptor>, all: seq<seq<Fields>>, n: nat, from: nat, to: nat): (r: seq<CollectionPage>)
    requires |all| == |ds| && n <= |all| && from <= to
    ensures |r| == |all| - n
    decreases |all| - n
  {
    if n == |all| then [] else [PageAt(ds[n], all[n], Start(all, n), from, to)] + PagesAt(ds, all, n + 1, from, to)
  }

  lemma {:induction false} PagesAtIndex(ds: seq<Descriptor>, all: seq<seq<Fields>>, n: nat, from: nat, to: nat, i: nat)
    requires |all| == |ds| && n <= i < |all| && from <= to
    ensures PagesAt(ds, all, n, from, to)[i - n] == PageAt(ds[i], all[i], Start(all, i), from, to)
    decreases |all| - n
  {
    if n < i { PagesAtIndex(ds, all, n + 1, from, to, i); }
  }

  lemma {:induction false} ReadStep(objects: Objects, codec: Codec, bucket: string, d: Descriptor, ds: seq<Descriptor>,
                                    items: seq<Fields>, start: nat, from: nat, to: nat, rest: seq<CollectionPage>)
    requires ServesOne(objects, codec, bucket, d, items) && from <= to
    requires ReadCollections(objects, codec, bucket, ds, start + d.count, from, to) == Ok(rest)
    ensures ReadCollections(objects, codec, bucket, [d] + ds, start, from, to) == Ok([PageAt(d, items, start, from, to)] + rest)
  {
    CollectionIsSlice(objects, codec, bucket, d, items, Local(from, start, d.count), Local(to, start, d.count));
    assert ([d] + ds)[1..] == ds;
  }

  lemma {:induction false} CollectionsAreSlices(objects: Objects, codec: Codec, bucket: string, ds: seq<Descriptor>,
                                                all: seq<seq<Fields>>, n: nat, from: nat, to: nat)
    requires ServesEach(objects, codec, bucket, ds, all) && n <= |all| && from <= to
    ensures ReadCollections(objects, codec, bucket, ds[n..], Start(all, n), from, to) == Ok(PagesAt(ds, all, n, from, to))
    decreases |all| - n
  {
    if n < |all| {
      var d := ds[n];
      assert ServesOne(objects, codec, bucket, d, all[n]);
      CollectionsAreSlices(objects, codec, bucket, ds, all, n + 1, from, to);
      assert ds[n..] == [d] + ds[n + 1..];
      ReadStep(objects, codec, bucket, d, ds[n + 1..], all[n], Start(all, n), from, to, PagesAt(ds, all, n + 1, from, to));
    }
  }

  /** The page request on a readable artifact. */
  lemma {:induction false} PageReads(objects: Objects, codec: Codec, a: Artifact, m: Manifest, all: seq<seq<Fields>>,
                                     offset: nat, limit: nat)
    requires limit >= 1 && LoadManifest(objects, codec, a) == Ok(m) && ServesAll(objects, codec, a.bucket.value, m, all)
    ensures m.total == Start(all, |all|)
    ensures var r := ReadPage(objects, codec, a, offset, limit);
            && r.Ok? && r.value.offset == Min(offset, m.total) && r.value.total == m.total && r.value.metadata == m.metadata
            && |r.value.collections| == |all|
            && forall i :: 0 <= i < |all| ==>
                r.value.collections[i]
                == PageAt(m.collections[i], all[i], Start(all, i), Min(offset, m.total), Min(offset + limit, m.total))
  {
    assert m.collections[0..] == m.collections;
    forall i | 0 <= i < |all| ensures |all[i]| == m.collections[i].count {
      assert ServesOne(objects, codec, a.bucket.value, m.collections[i], all[i]);
    }
    TotalIsStart(m.collections, all, 0);
    CollectionsAreSlices(objects, codec, a.bucket.value, m.collections, all, 0, Min(offset, m.total), Min(offset + limit, m.total));
    forall i | 0 <= i < |all|
      ensures PagesAt(m.collections, all, 0, Min(offset, m.total), Min(offset + limit, m.total))[i]
          == PageAt(m.collections[i], all[i], Start(all, i), Min(offset, m.total), Min(offset + limit, m.total))
    {
      PagesAtIndex(m.collections, all, 0, Min(offset, m.total), Min(offset + limit, m.total), i);
    }
  }

  predicate InPage(page: CollectionPage, k: nat) { page.offset <= k < page.offset + |page.items| }

  /** `page` shows of `items`, which start at `start`, the positions in `[offset, offset + limit)`. */
  ghost predicate Window(page: CollectionPage, items: seq<Fields>, start: nat, offset: nat, limit: nat) {
    && page.offset + |page.items| <= |items| == page.total
    && page.items == items[page.offset..page.offset + |page.items|]
    && forall k :: 0 <= k < |items| ==> (InPage(page, k) <==> offset <= start + k < offset + limit)
  }

  lemma {:induction false} PageAtIsWindow(d: Descriptor, items: seq<Fields>, start: nat, total: nat, offset: nat, limit: nat)
    requires |items| == d.count && start + |items| <= total
    ensures Window(PageAt(d, items, start, Min(offset, total), Min(offset + limit, total)), items, start, offset, limit)
  {
  }

  /** A page holds, of every collection, exactly the items whose position in the
      concatenation of all collections lies in `[offset, offset + limit)`. */
  lemma {:induction false} PageIsWindow(objects: Objects, codec: Codec, a: Artifact, m: Manifest, all: seq<seq<Fields>>,
                                        offset: nat, limit: nat, i: nat)
    requires limit >= 1 && LoadManifest(objects, codec, a) == Ok(m) && ServesAll(objects, codec, a.bucket.value, m, all) && i < |all|
    ensures var r := ReadPage(objects, codec, a, offset, limit);
            && r.Ok? && |r.value.collections| == |all|
            && r.value.collections[i].id == m.collections[i].id && r.value.collections[i].metadata == m.collections[i].metadata
            && Window(r.value.collections[i], all[i], Start(all, i), offset, limit)
  {
    PageReads(objects, codec, a, m, all, offset, limit);
    StartsAreCounts(all, i, |all|);
    assert ServesOne(objects, codec, a.bucket.value, m.collections[i], all[i]);
    PageAtIsWindow(m.collections[i], all[i], Start(all, i), m.total, offset, limit);
  }

  // ---------------------------------------------------------------- consecutive pages

  /** What one page shows of collection `i`. */
  ghost function Shown(objects: Objects, codec: Codec, a: Artifact, offset: nat, limit: nat, i: nat): seq<Fields> {
    var page := ReadPage(objects, codec, a, offset, limit);
    if page.Ok? && i < |page.value.collections| then page.value.collections[i].items else []
  }

  /** Where page `n` starts when each page takes `limit` items. */
  function PageStart(limit: nat, n: nat): nat { if n == 0 then 0 else PageStart(limit, n - 1) + limit }

  /** What `n` consecutive pages show of collection `i`. */
  ghost function Rebuilt(objects: Objects, codec: Codec, a: Artifact, limit: nat, n: nat, i: nat): seq<Fields> {
    if n == 0 then [] else Rebuilt(objects, codec, a, limit, n - 1, i) + Shown(objects, codec, a, PageStart(limit, n - 1), limit, i)
  }

  lemma {:induction false} ShownIs(objects: Objects, codec: Codec, a: Artifact, m: Manifest, all: seq<seq<Fields>>,
                                   offset: nat, limit: nat, i: nat)
    requires limit >= 1 && LoadManifest(objects, codec, a) == Ok(m) && ServesAll(objects, codec, a.bucket.value, m, all) && i < |all|
    ensures Start(all, i) + |all[i]| <= m.total
    ensures Shown(objects, codec, a, offset, limit, i)
         == all[i][Local(Min(offset, m.total), Start(all, i), |all[i]|)..Local(Min(offset + limit, m.total), Start(all, i), |all[i]|)]
  {
    PageReads(objects, codec, a, m, all, offset, limit);
    StartsAreCounts(all, i, |all|);
  }

  lemma {:induction false} PagesJoin(items: seq<Fields>, start: nat, total: nat, a: nat, b: nat)
    requires a <= b && start + |items| <= total
    ensures items[..Local(a, start, |items|)] + items[Local(Min(a, total), start, |items|)..Local(Min(b, total), start, |items|)]
         == items[..Local(b, start, |items|)]
  {
  }

  function LocalPart(items: seq<Fields>, start: nat, from: nat, to: nat): seq<Fields>
    requires from <= to
  {
    items[Local(from, start, |items|)..Local(to, start, |items|)]
  }

  ghost predicate Shows(objects: Objects, codec: Codec, a: Artifact, limit: nat, i: nat, items: seq<Fields>, start: nat, total: nat) {
    forall offset: nat ::
      Shown(objects, codec, a, offset, limit, i) == LocalPart(items, start, Min(offset, total), Min(offset + limit, total))
  }

  lemma {:induction false} PagesAreAPrefix(objects: Objects, codec: Codec, a: Artifact, limit: nat, n: nat, i: nat,
                                           items: seq<Fields>, start: nat, total: nat)
    requires Shows(objects, codec, a, limit, i, items, start, total) && start + |items| <= total
    ensures Rebuilt(objects, codec, a, limit, n, i) == items[..Local(PageStart(limit, n), start, |items|)]
  {
    if n > 0 {
      PagesAreAPrefix(objects, codec, a, limit, n - 1, i, items, start, total);
      PagesJoin(items, start, total, PageStart(limit, n - 1), PageStart(limit, n));
    }
  }

  /** Reading page after page rebuilds every collection. */
  lemma {:induction false} PagesRebuildAll(objects: Objects, codec: Codec, a: Artifact, m: Manifest,
                                           all: seq<seq<Fields>>, limit: nat, n: nat, i: nat)
    requires limit >= 1 && LoadManifest(objects, codec, a) == Ok(m) && ServesAll(objects, codec, a.bucket.value, m, all) && i < |all|
    requires PageStart(limit, n) >= m.total
    ensures Rebuilt(objects, codec, a, limit, n, i) == all[i]
  {
    var start := Start(all, i);
    forall offset: nat
      ensures Shown(objects, codec, a, offset, limit, i) == LocalPart(all[i], start, Min(offset, m.total), Min(offset + limit, m.total))
    {
      ShownIs(objects, codec, a, m, all, offset, limit, i);
    }
    ShownIs(objects, codec, a, m, all, 0, 1, i);
    PagesAreAPrefix(objects, codec, a, limit, n, i, all[i], start, m.total);
    assert all[i][..|all[i]|] == all[i];
  }

  // ---------------------------------------------------------------- intact and readable

  ghost predicate Holds(objects: Objects, codec: Codec, bucket: string, id: string, ref: ChunkRef, items: seq<Fields>, from: nat) {
    from <= ref.offset && ref.offset + ref.count - from <= |items|
    && LoadChunk(objects, codec, bucket, id, ref) == Ok(items[ref.offset - from..ref.offset + ref.count - from])
  }

  lemma {:induction false} HoldsLater(objects: Objects, codec: Codec, bucket: string, id: string, ref: ChunkRef,
                                      first: seq<Fields>, rest: seq<Fields>, from: nat)
    requires Holds(objects, codec, bucket, id, ref, rest, from + |first|)
    ensures Holds(objects, codec, bucket, id, ref, first + rest, from)
  {
    var low, high := ref.offset - from, ref.offset + ref.count - from;
    assert (first + rest)[low..high] == rest[low - |first|..high - |first|];
  }

  lemma {:induction false} TiledContents(objects: Objects, codec: Codec, bucket: string, id: string,
                                         refs: seq<ChunkRef>, from: nat, to: nat) returns (items: seq<Fields>)
    requires Tiles(refs, from, to) && forall ref :: ref in refs ==> LoadChunk(objects, codec, bucket, id, ref).Ok?
    ensures from <= to && |items| == to - from
    ensures forall ref :: ref in refs ==> Holds(objects, codec, bucket, id, ref, items, from)
    decreases |refs|
  {
    if refs == [] {
      items := [];
    } else {
      var first := LoadChunk(objects, codec, bucket, id, refs[0]).value;
      var rest := TiledContents(objects, codec, bucket, id, refs[1..], from + refs[0].count, to);
      items := first + rest;
      forall r | r in refs ensures Holds(objects, codec, bucket, id, r, items, from) {
        if r in refs[1..] {
          HoldsLater(objects, codec, bucket, id, r, first, rest, from);
        } else {
          assert items[..|first|] == first;
        }
      }
    }
  }

  lemma {:induction false} IntactServesOne(objects: Objects, codec: Codec, bucket: string, d: Descriptor) returns (items: seq<Fields>)
    requires ValidDescriptor(d) && IntactCollection(objects, codec, bucket, d)
    ensures ServesOne(objects, codec, bucket, d, items)
  {
    items := TiledContents(objects, codec, bucket, d.id, d.chunks, 0, d.count);
    forall ref | ref in d.chunks
      ensures ref.offset + ref.count <= |items|
      ensures LoadChunk(objects, codec, bucket, d.id, ref) == Ok(items[ref.offset..ref.offset + ref.count])
    {
      assert Holds(objects, codec, bucket, d.id, ref, items, 0);
    }
  }

  lemma {:induction false} IntactServesAll(objects: Objects, codec: Codec, a: Artifact, m: Manifest, n: nat) returns (all: seq<seq<Fields>>)
    requires LoadManifest(objects, codec, a) == Ok(m) && ValidManifest(m) && Intact(objects, codec, a) && n <= |m.collections|
    ensures |all| == n && forall i :: 0 <= i < n ==> ServesOne(objects, codec, a.bucket.value, m.collections[i], all[i])
  {
    if n == 0 {
      all := [];
    } else {
      all := IntactServesAll(objects, codec, a, m, n - 1);
      assert m.collections[n - 1] in m.collections;
      var items := IntactServesOne(objects, codec, a.bucket.value, m.collections[n - 1]);
      all := all + [items];
    }
  }

  /** An artifact that passes the intact check can be read at every offset and limit. */
  lemma {:induction false} IntactIsReadable(objects: Objects, codec: Codec, a: Artifact, offset: nat, limit: nat)
    requires Faithful(codec) && Intact(objects, codec, a) && limit >= 1
    ensures ReadPage(objects, codec, a, offset, limit).Ok?
  {
    var m := LoadManifest(objects, codec, a).value;
    var all := IntactServesAll(objects, codec, a, m, |m.collections|);
    PageReads(objects, codec, a, m, all, offset, limit);
  }

  lemma {:induction false} ReadRangeLoads(objects: Objects, codec: Codec, bucket: string, id: string,
                                          refs: seq<ChunkRef>, from: nat, to: nat, ref: ChunkRef)
    requires from < to && ReadRange(objects, codec, bucket, id, refs, from, to).Ok? && ref in refs && Overlaps(ref, from, to)
    ensures LoadChunk(objects, codec, bucket, id, ref).Ok?
    decreases |refs|
  {
    if refs[0] != ref { ReadRangeLoads(objects, codec, bucket, id, refs[1..], from, to, ref); }
  }

  lemma {:induction false} ReadCollectionsLoads(objects: Objects, codec: Codec, bucket: string, ds: seq<Descriptor>,
                                                start: nat, to: nat, d: Descriptor)
    requires ReadCollections(objects, codec, bucket, ds, start, 0, to).Ok? && d in ds && to >= start + TotalItems(ds)
    ensures ReadCollection(objects, codec, bucket, d, 0, d.count).Ok?
    decreases |ds|
  {
    if ds[0] != d { ReadCollectionsLoads(objects, codec, bucket, ds[1..], start + ds[0].count, to, d); }
  }

  /** A read of the whole range that succeeds has seen every chunk. */
  lemma {:induction false} FullReadIsIntact(objects: Objects, codec: Codec, a: Artifact, limit: nat)
    requires Faithful(codec) && ReadPage(objects, codec, a, 0, limit).Ok? && limit >= ReadPage(objects, codec, a, 0, limit).value.total
    ensures Intact(objects, codec, a)
  {
    var m := LoadManifest(objects, codec, a).value;
    forall d | d in m.collections ensures IntactCollection(objects, codec, a.bucket.value, d) {
      ReadCollectionsLoads(objects, codec, a.bucket.value, m.collections, 0, m.total, d);
      TilesBounds(d.chunks, 0, d.count);
      forall ref | ref in d.chunks ensures LoadChunk(objects, codec, a.bucket.value, d.id, ref).Ok? {
        assert ValidRef(ref);
        ReadRangeLoads(objects, codec, a.bucket.value, d.id, d.chunks, 0, d.count, ref);
      }
    }
  }
}
