/** Greedy packing of items into chunks. */
module CollectionPacking {
  import opened Json
  import opened CollectionModel

  const MAX_ITEMS := 50
  const TARGET_BYTES := 512 * 1024

  function Sizes(size: Fields -> nat, items: seq<Fields>): nat {
    if items == [] then 0 else Sizes(size, items[..|items| - 1]) + size(items[|items| - 1])
  }

  /** A chunk may hold these items: at most fifty, and a single item or few enough bytes. */
  ghost predicate Fits(size: Fields -> nat, items: seq<Fields>) {
    1 <= |items| <= MAX_ITEMS && (|items| >= 2 ==> 64 + Sizes(size, items) + (|items| - 1) <= TARGET_BYTES)
  }

  /** The chunk `[from, to)` fits, and one more item would not. */
  ghost predicate Greedy(size: Fields -> nat, items: seq<Fields>, from: nat, to: nat) {
    && from < to <= |items| && Fits(size, items[from..to])
    && (to < |items| ==> !Fits(size, items[from..to + 1]))
  }

  lemma {:induction false} SizesAppend(size: Fields -> nat, items: seq<Fields>, from: nat, to: nat)
    requires from <= to < |items|
    ensures Sizes(size, items[from..to + 1]) == Sizes(size, items[from..to]) + size(items[to])
  {
    assert items[from..to + 1][..to - from] == items[from..to];
  }

  /** The inner loop of saving: how far the chunk that starts at `from` goes. */
  method ChunkEnd(size: Fields -> nat, items: seq<Fields>, from: nat) returns (end: nat)
    requires from < |items|
    ensures Greedy(size, items, from, end)
    ensures end - from == MAX_ITEMS || end == |items| || 64 + Sizes(size, items[from..end]) + (end - from) + size(items[end]) > TARGET_BYTES
  {
    end := from;
    var estimated := 64;
    while end < |items| && end - from < MAX_ITEMS
      invariant from <= end <= |items| && end - from <= MAX_ITEMS
      invariant estimated == 64 + Sizes(size, items[from..end]) + (end - from)
      invariant end > from ==> Fits(size, items[from..end])
    {
      var itemSize := size(items[end]);
      SizesAppend(size, items, from, end);
      if end > from && estimated + itemSize > TARGET_BYTES {
        break;
      }
      estimated := estimated + itemSize + 1;
      end := end + 1;
    }
    if end < |items| { SizesAppend(size, items, from, end); }
  }

  // ---------------------------------------------------------------- greedy is best

  lemma {:induction false} SizesOfPart(size: Fields -> nat, items: seq<Fields>, a: nat, b: nat, c: nat)
    requires a <= b <= c <= |items|
    ensures Sizes(size, items[b..c]) <= Sizes(size, items[a..c])
    ensures Sizes(size, items[a..b]) <= Sizes(size, items[a..c])
    decreases c
  {
    if b < c {
      SizesOfPart(size, items, a, b, c - 1);
      SizesAppend(size, items, a, c - 1);
      SizesAppend(size, items, b, c - 1);
    } else {
      assert items[b..c] == [];
    }
  }

  lemma {:induction false} PartsFit(size: Fields -> nat, items: seq<Fields>, a: nat, b: nat, c: nat, d: nat)
    requires a <= b < c <= d <= |items| && Fits(size, items[a..d])
    ensures Fits(size, items[b..c])
  {
    SizesOfPart(size, items, a, b, d);
    SizesOfPart(size, items, b, c, d);
  }

  /** No admissible chunk that starts at or before a greedy one ends after it. */
  lemma {:induction false} GreedyIsLongest(size: Fields -> nat, items: seq<Fields>, from: nat, end: nat, a: nat, d: nat)
    requires Greedy(size, items, from, end) && a <= from && a < d <= |items| && Fits(size, items[a..d])
    ensures d <= end
  {
    if end < d { PartsFit(size, items, a, from, end + 1, d); }
  }

  /** Boundaries of a division of `items` into admissible chunks. */
  ghost predicate Divides(size: Fields -> nat, items: seq<Fields>, cuts: seq<nat>) {
    && cuts != [] && cuts[0] == 0 && cuts[|cuts| - 1] == |items|
    && forall k :: 0 <= k < |cuts| - 1 ==> Admissible(size, items, cuts[k], cuts[k + 1])
  }

  ghost predicate Admissible(size: Fields -> nat, items: seq<Fields>, from: nat, to: nat) {
    from < to <= |items| && Fits(size, items[from..to])
  }

  ghost predicate GreedyCuts(size: Fields -> nat, items: seq<Fields>, cuts: seq<nat>) {
    && cuts != [] && cuts[0] == 0 && cuts[|cuts| - 1] == |items|
    && forall k :: 0 <= k < |cuts| - 1 ==> Greedy(size, items, cuts[k], cuts[k + 1])
  }

  lemma {:induction false} GreedyStaysAhead(size: Fields -> nat, items: seq<Fields>, greedy: seq<nat>, other: seq<nat>, k: nat)
    requires GreedyCuts(size, items, greedy) && Divides(size, items, other) && k < |greedy| && k < |other|
    ensures other[k] <= greedy[k]
  {
    if k > 0 {
      GreedyStaysAhead(size, items, greedy, other, k - 1);
      assert Greedy(size, items, greedy[k - 1], greedy[k]) && Admissible(size, items, other[k - 1], other[k]);
      GreedyIsLongest(size, items, greedy[k - 1], greedy[k], other[k - 1], other[k]);
    }
  }

  lemma {:induction false} InnerCut(size: Fields -> nat, items: seq<Fields>, greedy: seq<nat>, k: nat)
    requires GreedyCuts(size, items, greedy) && k < |greedy| - 1
    ensures greedy[k] < |items|
  {
    assert Greedy(size, items, greedy[k], greedy[k + 1]);
  }

  /** Greedy packing writes as few chunks as any admissible division. */
  lemma {:induction false} GreedyIsFewest(size: Fields -> nat, items: seq<Fields>, greedy: seq<nat>, other: seq<nat>)
    requires GreedyCuts(size, items, greedy) && Divides(size, items, other)
    ensures |greedy| <= |other|
  {
    if |other| < |greedy| {
      InnerCut(size, items, greedy, |other| - 1);
      GreedyStaysAhead(size, items, greedy, other, |other| - 1);
    }
  }
}
