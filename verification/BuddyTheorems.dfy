/** What the buddy allocator guarantees: accounting, completeness, and exact undo. */
module BuddyTheorems {
  import opened Dyadic
  import opened BuddyTiles
  import opened Options

  // ---------------------------------------------------------------- accounting

  /** Bytes in taken blocks, walking the blocks in address order from a to the end. */
  ghost function UsedFrom(h: Heap, a: nat): nat
    decreases h.End() - a
  {
    if a in h.tiles && a < h.End() then
      (if h.tiles[a].isFree then 0 else Pow2(h.tiles[a].level)) + UsedFrom(h, a + Pow2(h.tiles[a].level))
    else 0
  }

  ghost function FreeFrom(h: Heap, a: nat): nat
    decreases h.End() - a
  {
    if a in h.tiles && a < h.End() then
      (if h.tiles[a].isFree then Pow2(h.tiles[a].level) else 0) + FreeFrom(h, a + Pow2(h.tiles[a].level))
    else 0
  }

  ghost function Used(h: Heap): nat { UsedFrom(h, h.base) }

  /** Nothing is lost: taken and free blocks together are always the whole root block. */
  lemma {:induction false} NothingLost(h: Heap, a: nat)
    requires Tiled(h) && a in h.tiles
    ensures UsedFrom(h, a) + FreeFrom(h, a) == h.End() - a
    decreases h.End() - a
  {
    assert TileOk(h, a);
    if a + Pow2(h.tiles[a].level) in h.tiles {
      NothingLost(h, a + Pow2(h.tiles[a].level));
    }
  }

  /** Two heaps that agree from y on have the same tail sum. */
  lemma {:induction false} SameSuffix(h: Heap, g: Heap, y: nat, a: nat)
    requires Tiled(h) && h.End() == g.End() && y <= a
    requires forall c :: c >= y ==> ((c in h.tiles <==> c in g.tiles) && (c in h.tiles ==> h.tiles[c] == g.tiles[c]))
    ensures UsedFrom(h, a) == UsedFrom(g, a)
    decreases h.End() - a
  {
    if a in h.tiles && a < h.End() {
      SameSuffix(h, g, y, a + Pow2(h.tiles[a].level));
    }
  }

  /** Two heaps that agree below x, where both have a block, differ only by the sums from x on. */
  lemma {:induction false} SamePrefix(h: Heap, g: Heap, x: nat, a: nat)
    requires Tiled(h) && h.End() == g.End() && a <= x < h.End() && a in h.tiles && x in h.tiles && x in g.tiles
    requires forall c :: c in h.tiles && c < x ==> c in g.tiles && g.tiles[c] == h.tiles[c]
    ensures UsedFrom(h, a) - UsedFrom(h, x) == UsedFrom(g, a) - UsedFrom(g, x)
    decreases x - a
  {
    if a < x {
      assert TileOk(h, a) && Apart(h, a, x);
      SamePrefix(h, g, x, a + Pow2(h.tiles[a].level));
    }
  }

  /** Only the flag of block b differs. */
  lemma FlagUsed(h: Heap, g: Heap, b: nat)
    requires Tiled(h) && b in h.tiles && h.tiles[b].isFree && g.base == h.base && g.root == h.root
    requires g.tiles == h.tiles[b := Tile(h.tiles[b].level, false)]
    ensures Used(g) == Used(h) + Pow2(h.tiles[b].level)
  {
    assert TileOk(h, b);
    SamePrefix(h, g, b, h.base);
    SameSuffix(h, g, b + 1, b + Pow2(h.tiles[b].level));
    assert UsedFrom(g, b) == Pow2(h.tiles[b].level) + UsedFrom(g, b + Pow2(h.tiles[b].level));
    assert UsedFrom(h, b) == UsedFrom(h, b + Pow2(h.tiles[b].level));
  }

  lemma TakeHeadUsed(h: Heap, i: nat)
    requires Tiled(h) && Listed(h) && i < BLOCKS && h.lists[i] != []
    ensures h.lists[i][0] in h.tiles
    ensures Used(TakeHead(h, i)) == Used(h) + Pow2(i)
  {
    TakeHeadListing(h, i);
    FlagUsed(h, TakeHead(h, i), h.lists[i][0]);
  }

  lemma ReleaseUsed(h: Heap, k: nat, b: nat)
    requires Shape(h, k) && b in h.tiles && !h.tiles[b].isFree && h.tiles[b].level < |h.lists|
    ensures Used(Release(h, b)) == Used(h) - Pow2(h.tiles[b].level)
  {
    ReleaseKeepsShape(h, k, b);
    var r := Release(h, b);
    assert h.tiles == r.tiles[b := Tile(r.tiles[b].level, false)];
    FlagUsed(r, h, b);
  }

  lemma SplitUsed(h: Heap, b: nat)
    requires Tiled(h) && b in h.tiles && !h.tiles[b].isFree && MIN_LEVEL < h.tiles[b].level <= |h.lists|
    ensures Used(SplitOnce(h, b)) == Used(h) - Pow2(h.tiles[b].level - 1)
  {
    assert TileOk(h, b);
    var l := h.tiles[b].level - 1;
    var g := SplitOnce(h, b);
    SplitTiling(h, b);
    SamePrefix(h, g, b, h.base);
    forall c | c >= b + Pow2(l + 1)
      ensures (c in h.tiles <==> c in g.tiles) && (c in h.tiles ==> h.tiles[c] == g.tiles[c])
    {
    }
    SameSuffix(h, g, b + Pow2(l + 1), b + Pow2(l + 1));
    assert UsedFrom(g, b) == Pow2(l) + UsedFrom(g, b + Pow2(l));
    assert UsedFrom(g, b + Pow2(l)) == UsedFrom(g, b + Pow2(l + 1));
  }

  /** Joining two adjacent free blocks does not change the sum. */
  lemma JoinUsed(h: Heap, g: Heap, l: nat, lo: nat, hi: nat)
    requires Tiled(h) && lo in h.tiles && h.tiles[lo] == Tile(l, true)
    requires hi == lo + Pow2(l) && hi in h.tiles && h.tiles[hi] == Tile(l, true)
    requires g.tiles == (h.tiles - {hi})[lo := Tile(l + 1, true)] && g.base == h.base && g.root == h.root
    ensures Used(g) == Used(h)
  {
    assert TileOk(h, lo) && TileOk(h, hi);
    SamePrefix(h, g, lo, h.base);
    SameSuffix(h, g, hi + 1, hi + Pow2(l));
    assert UsedFrom(h, lo) == UsedFrom(h, hi);
    assert UsedFrom(h, hi) == UsedFrom(h, hi + Pow2(l));
    assert UsedFrom(g, lo) == UsedFrom(g, lo + Pow2(l + 1));
  }

  lemma MergeUsed(h: Heap, b: nat)
    requires Tiled(h) && b in h.tiles && h.tiles[b].isFree && CanMerge(h, b) && h.root < |h.lists|
    ensures h.tiles[b].level + 1 < |h.lists|
    ensures Used(MergeOnce(h, b)) == Used(h)
  {
    var lo, hi := MergeAddresses(h, b);
    JoinUsed(h, MergeOnce(h, b), h.tiles[b].level, lo, hi);
  }

  lemma {:induction false} SplitToUsed(h: Heap, k: nat, b: nat, target: nat)
    requires Shape(h, k) && b in h.tiles && !h.tiles[b].isFree
    requires MIN_LEVEL <= target <= h.tiles[b].level < BLOCKS
    ensures Used(SplitTo(h, b, target)) == Used(h) - Pow2(h.tiles[b].level) + Pow2(target)
    decreases h.tiles[b].level
  {
    if h.tiles[b].level > target {
      SplitKeeps(h, k, b);
      SplitUsed(h, b);
      SplitToUsed(SplitOnce(h, b), k, b, target);
    }
  }

  lemma {:induction false} CoalesceUsed(h: Heap, k: nat, b: nat)
    requires Shape(h, k) && b in h.tiles && h.tiles[b].isFree
    ensures Used(Coalesce(h, k, b)) == Used(h)
    decreases h.root - h.tiles[b].level
  {
    assert TileOk(h, b);
    if CanMerge(h, b) {
      MergeKeepsShape(h, k, b);
      MergeUsed(h, b);
      CoalesceUsed(MergeOnce(h, b), k, ParentOf(h, b));
    }
  }

  /** The counter update of allocMemory: the size of the block handed out, however many
      splits it took. */
  lemma AllocUsed(h: Heap, k: nat, level: nat)
    requires Inv(h, k) && MIN_LEVEL <= level < BLOCKS
    ensures Used(Alloc(h, level).0) == Used(h) + (if Alloc(h, level).1.Some? then Pow2(level) else 0)
  {
    var i := Lowest(h.lists, level);
    if i < BLOCKS {
      TakeHeadKeeps(h, k, i);
      TakeHeadUsed(h, i);
      SplitToUsed(TakeHead(h, i), k, h.lists[i][0], level);
    }
  }

  /** The counter update of freeMemory: the size of the block given back, however many
      merges follow. */
  lemma FreeUsed(h: Heap, k: nat, b: nat)
    requires Inv(h, k) && b in h.tiles && !h.tiles[b].isFree
    ensures Used(Free(h, k, b)) == Used(h) - Pow2(h.tiles[b].level)
  {
    ReleaseKeepsShape(h, k, b);
    ReleaseUsed(h, k, b);
    CoalesceUsed(Release(h, b), k, b);
  }

  // ---------------------------------------------------------------- who holds what

  /** The blocks handed out and not given back, with their levels. */
  ghost function Taken(h: Heap): map<nat, nat> { map a | a in h.tiles && !h.tiles[a].isFree :: h.tiles[a].level }

  lemma SplitTaken(h: Heap, b: nat)
    requires Tiled(h) && b in h.tiles && !h.tiles[b].isFree && 0 < h.tiles[b].level <= |h.lists|
    ensures Taken(SplitOnce(h, b)) == Taken(h)[b := h.tiles[b].level - 1]
  {
    var right := b + Pow2(h.tiles[b].level - 1);
    assert right in h.tiles ==> Apart(h, b, right);
  }

  lemma {:induction false} SplitToTaken(h: Heap, k: nat, b: nat, target: nat)
    requires Shape(h, k) && b in h.tiles && !h.tiles[b].isFree && MIN_LEVEL <= target <= h.tiles[b].level < BLOCKS
    ensures Taken(SplitTo(h, b, target)) == Taken(h)[b := target]
    decreases h.tiles[b].level
  {
    if h.tiles[b].level > target {
      SplitKeeps(h, k, b);
      SplitTaken(h, b);
      SplitToTaken(SplitOnce(h, b), k, b, target);
    }
  }

  /** An allocation that succeeds adds one block of the level asked for to those held, one that was
      not held before; nobody else's block is touched. One that fails changes nothing. */
  lemma AllocAddsOne(h: Heap, k: nat, level: nat)
    requires Inv(h, k) && MIN_LEVEL <= level < BLOCKS
    ensures var (g, block) := Alloc(h, level);
            match block
            case None => g == h
            case Some(b) => b !in Taken(h) && Taken(g) == Taken(h)[b := level]
  {
    var i := Lowest(h.lists, level);
    if i < BLOCKS {
      TakeHeadKeeps(h, k, i);
      var t := TakeHead(h, i);
      assert Taken(t) == Taken(h)[h.lists[i][0] := i];
      SplitToTaken(t, k, h.lists[i][0], level);
    }
  }

  lemma MergeTaken(h: Heap, b: nat)
    requires b in h.tiles && h.tiles[b].isFree && CanMerge(h, b) && h.tiles[b].level + 1 < |h.lists|
    ensures Taken(MergeOnce(h, b)) == Taken(h)
  {
  }

  lemma {:induction false} CoalesceTaken(h: Heap, k: nat, b: nat)
    requires Shape(h, k) && b in h.tiles && h.tiles[b].isFree
    ensures Taken(Coalesce(h, k, b)) == Taken(h)
    decreases h.root - h.tiles[b].level
  {
    assert TileOk(h, b);
    if CanMerge(h, b) {
      MergeKeepsShape(h, k, b);
      MergeTaken(h, b);
      CoalesceTaken(MergeOnce(h, b), k, ParentOf(h, b));
    }
  }

  /** Freeing takes exactly that block off those held, whatever is merged behind it. */
  lemma FreeRemovesOne(h: Heap, k: nat, b: nat)
    requires Inv(h, k) && b in h.tiles && !h.tiles[b].isFree
    ensures Taken(Free(h, k, b)) == Taken(h) - {b}
  {
    ReleaseKeepsShape(h, k, b);
    assert Taken(Release(h, b)) == Taken(h) - {b};
    CoalesceTaken(Release(h, b), k, b);
  }

  /** Whatever blocks are held at the same time, they do not overlap and lie in the root block. */
  lemma HeldApart(h: Heap, k: nat, a: nat, c: nat)
    requires Inv(h, k) && a in Taken(h) && c in Taken(h) && a < c
    ensures h.base <= a && a + Pow2(Taken(h)[a]) <= c && c + Pow2(Taken(h)[c]) <= h.End()
  {
    assert TileOk(h, a) && TileOk(h, c) && Apart(h, a, c);
  }

  // ---------------------------------------------------------------- where the block comes from

  lemma SplitOnceLists(h: Heap, b: nat, n: nat)
    requires b in h.tiles && h.tiles[b].level == n + 1 <= |h.lists|
    ensures b in SplitOnce(h, b).tiles && SplitOnce(h, b).tiles[b].level == n
    ensures SplitOnce(h, b).lists == h.lists[n := [b + Pow2(n)] + h.lists[n]]
  {
  }

  /** Splitting puts exactly one right half in front of the list of each level passed. */
  lemma {:induction false} SplitToLists(h: Heap, b: nat, target: nat, j: nat)
    requires b in h.tiles && h.tiles[b].level <= |h.lists| && j < |h.lists|
    ensures |SplitTo(h, b, target).lists| == |h.lists|
    ensures SplitTo(h, b, target).lists[j] ==
              if target <= j < h.tiles[b].level then [b + Pow2(j)] + h.lists[j] else h.lists[j]
    decreases h.tiles[b].level
  {
    if h.tiles[b].level > target {
      SplitOnceLists(h, b, h.tiles[b].level - 1);
      SplitToLists(SplitOnce(h, b), b, target, j);
    }
  }

  /** A successful allocation takes the head of the lowest non-empty list at or above the level;
      each list below it down to the level, empty until now, receives exactly one block, the right
      half of the split; every other list is as it was. */
  lemma AllocTakesLowest(h: Heap, k: nat, level: nat)
    requires Inv(h, k) && level < BLOCKS && Alloc(h, level).1.Some?
    ensures exists i :: level <= i < BLOCKS && h.lists[i] != [] && Alloc(h, level).1 == Some(h.lists[i][0])
              && (forall j :: level <= j < i ==> h.lists[j] == [])
              && |Alloc(h, level).0.lists| == BLOCKS
              && (forall j :: 0 <= j < BLOCKS ==>
                    Alloc(h, level).0.lists[j] ==
                      if level <= j < i then [h.lists[i][0] + Pow2(j)] else if j == i then h.lists[i][1..] else h.lists[j])
  {
    var i := Lowest(h.lists, level);
    TakeHeadKeeps(h, k, i);
    SplitToLists(TakeHead(h, i), h.lists[i][0], level, i);
    forall j | 0 <= j < BLOCKS
      ensures Alloc(h, level).0.lists[j] ==
                if level <= j < i then [h.lists[i][0] + Pow2(j)] else if j == i then h.lists[i][1..] else h.lists[j]
    {
      SplitToLists(TakeHead(h, i), h.lists[i][0], level, j);
    }
  }

  // ---------------------------------------------------------------- completeness

  /** Every block that overlaps [x, y) is free. */
  ghost predicate FreeRange(h: Heap, x: nat, y: nat) {
    forall a :: a in h.tiles && a < y && x < a + Pow2(h.tiles[a].level) ==> h.tiles[a].isFree
  }

  /** In a range of whole 2^n windows that is entirely free, no block below level n starts:
      it would have met its partner there. */
  lemma {:induction false} NoSmallBlock(h: Heap, k: nat, x: nat, y: nat, n: nat, a: nat)
    requires Inv(h, k) && n <= k && Aligned(x, n) && Aligned(y, n) && h.base <= x && y <= h.End()
    requires FreeRange(h, x, y)
    requires a in h.tiles && x <= a < y
    ensures h.tiles[a].level >= n
    decreases h.tiles[a].level
  {
    var l := h.tiles[a].level;
    if l < n {
      var p := BuddyOf(a, l);
      BuddyIsLive(h, k, a);
      PartnerInRange(a, l, x, y, n);
      assert TileOk(h, a) && TileOk(h, p);
      assert !FreePair(h, k, a);
      NoSmallBlock(h, k, x, y, n, p);
      assert false;
    }
  }

  lemma LeftPartnerInRange(a: nat, l: nat, x: nat, n: nat)
    requires Aligned(a, l) && l < n && Aligned(x, n) && x <= a && Bit(a, l)
    ensures a >= Pow2(l) && x <= a - Pow2(l)
  {
    AlignedBit(a, l);
    AlignedWeaken(x, l + 1, n);
    AlignedAtMost(a - Pow2(l), x, l + 1);
  }

  lemma RightPartnerInRange(a: nat, l: nat, y: nat, n: nat)
    requires Aligned(a, l) && l < n && Aligned(y, n) && a < y && !Bit(a, l)
    ensures a + Pow2(l) < y
  {
    AlignedBit(a, l);
    AlignedWeaken(y, l + 1, n);
    AlignedGap(a, y, l + 1);
  }

  lemma PartnerInRange(a: nat, l: nat, x: nat, y: nat, n: nat)
    requires Aligned(a, l) && l < n && Aligned(x, n) && Aligned(y, n) && x <= a < y
    ensures x <= BuddyOf(a, l) < y
  {
    XorPow2(a, l);
    if Bit(a, l) {
      LeftPartnerInRange(a, l, x, n);
    } else {
      RightPartnerInRange(a, l, y, n);
    }
  }

  /** A window of 2^level bytes of the root block, aligned to its size and entirely free. */
  ghost predicate FreeWindow(h: Heap, level: nat, x: nat) {
    && h.base <= x && x + Pow2(level) <= h.End() && Aligned(x, level)
    && FreeRange(h, x, x + Pow2(level))
  }

  /** At any level, within the alignment or above it: allocation fails exactly when every free
      list from that level up is empty. */
  lemma AllocFailsByLists(h: Heap, k: nat, level: nat)
    requires Inv(h, k) && level < BLOCKS
    ensures Alloc(h, level).1.None? <==> forall j :: level <= j < BLOCKS ==> h.lists[j] == []
  {
    if Lowest(h.lists, level) == BLOCKS {
      assert forall j :: level <= j < BLOCKS ==> h.lists[j] == [];
    }
  }

  /** Allocation at a level within the alignment fails exactly when the root block holds no
      free aligned window of that size: no request is refused because of how earlier calls
      cut up free memory. */
  lemma AllocFailsExactly(h: Heap, k: nat, level: nat)
    requires Inv(h, k) && MIN_LEVEL <= level <= k
    ensures Alloc(h, level).1.None? <==> forall x :: !FreeWindow(h, level, x)
  {
    forall x | FreeWindow(h, level, x) ensures Alloc(h, level).1.Some? {
      WindowGivesBlock(h, k, level, x);
    }
    var i := Lowest(h.lists, level);
    if i < BLOCKS {
      var b := h.lists[i][0];
      assert ListedAt(h, i) && b in h.lists[i];
      BlockGivesWindow(h, k, level, b);
    }
  }

  lemma WindowGivesBlock(h: Heap, k: nat, level: nat, x: nat)
    requires Inv(h, k) && level <= k && FreeWindow(h, level, x)
    ensures Lowest(h.lists, level) < BLOCKS
  {
    var c := Cover(h, h.base, x);
    var m := h.tiles[c].level;
    assert TileOk(h, c);
    if m < level {
      AlignedWeaken(x, m, level);
      if c < x {
        AlignedGap(c, x, m);
        assert false;
      }
      AlignedPow2(level, level);
      AlignedSum(x, Pow2(level), level);
      NoSmallBlock(h, k, x, x + Pow2(level), level, x);
      assert false;
    }
    assert ListedAt(h, m);
    assert c in h.lists[m];
  }

  lemma BlockGivesWindow(h: Heap, k: nat, level: nat, b: nat)
    requires Inv(h, k) && level <= k && b in h.tiles && h.tiles[b].isFree && level <= h.tiles[b].level
    ensures FreeWindow(h, level, b)
  {
    assert TileOk(h, b);
    AlignedWeaken(b, level, Min(h.tiles[b].level, k));
    if level < h.tiles[b].level {
      Pow2Monotone(level, h.tiles[b].level);
    }
    forall a | a in h.tiles && a < b + Pow2(level) && b < a + Pow2(h.tiles[a].level)
      ensures h.tiles[a].isFree
    {
      assert Apart(h, a, b) && Apart(h, b, a);
    }
  }

  /** Once everything is free, no fragment below the alignment of the base is left; with a
      base aligned to the root block, only the root block itself is left. */
  lemma EverythingFreed(h: Heap, k: nat)
    requires Inv(h, k) && (forall a :: a in h.tiles ==> h.tiles[a].isFree)
    ensures forall a :: a in h.tiles ==> h.tiles[a].level >= k
    ensures k == h.root ==> h.tiles == map[h.base := Tile(h.root, true)]
  {
    AlignedPow2(h.root, k);
    AlignedSum(h.base, Pow2(h.root), k);
    forall a | a in h.tiles ensures h.tiles[a].level >= k {
      assert TileOk(h, a);
      NoSmallBlock(h, k, h.base, h.End(), k, a);
    }
    if k == h.root {
      assert TileOk(h, h.base);
      forall a | a in h.tiles ensures a == h.base {
        assert TileOk(h, a) && Apart(h, h.base, a);
      }
    }
  }

  // ---------------------------------------------------------------- exact undo

  /** Where the addresses of the halves split off b carry no bit, each half's partner is b. */
  predicate BitsClear(b: nat, from: nat, to: nat) {
    forall j :: from <= j < to ==> !Bit(b, j)
  }

  lemma RemoveFirstTwo(s: seq<nat>, b: nat, right: nat)
    requires b != right
    ensures Remove(Remove([b, right] + s, right), b) == s
  {
    assert ([b, right] + s)[1..] == [right] + s;
    assert Remove([b, right] + s, right) == [b] + s;
  }

  /** Merging the two free halves of b gives b back, free, at the front of its list. */
  lemma RejoinHalves(h: Heap, b: nat, l: nat)
    requires |h.lists| == BLOCKS && b in h.tiles && h.tiles[b] == Tile(l + 1, false) && l + 1 < BLOCKS
    requires b + Pow2(l) !in h.tiles && BuddyOf(b, l) == b + Pow2(l)
    ensures CanMerge(Release(SplitOnce(h, b), b), b)
    ensures MergeOnce(Release(SplitOnce(h, b), b), b) == Release(h, b)
    ensures ParentOf(Release(SplitOnce(h, b), b), b) == b
  {
    RemoveFirstTwo(h.lists[l], b, b + Pow2(l));
    var g := Release(SplitOnce(h, b), b);
    assert g.lists[l] == [b, b + Pow2(l)] + h.lists[l];
    assert MergeOnce(g, b).tiles == Release(h, b).tiles;
    assert MergeOnce(g, b).lists == Release(h, b).lists;
  }

  /** Freeing the left half of a fresh split puts the split block back, lists included. */
  lemma UnsplitOnce(h: Heap, k: nat, b: nat)
    requires Shape(h, k) && b in h.tiles && !h.tiles[b].isFree && MIN_LEVEL < h.tiles[b].level < BLOCKS
    requires !Bit(b, h.tiles[b].level - 1)
    ensures Shape(SplitOnce(h, b), k)
    ensures CanMerge(Release(SplitOnce(h, b), b), b)
    ensures MergeOnce(Release(SplitOnce(h, b), b), b) == Release(h, b)
    ensures ParentOf(Release(SplitOnce(h, b), b), b) == b
  {
    SplitKeeps(h, k, b);
    PartnerIsRight(h, k, b);
    RejoinHalves(h, b, h.tiles[b].level - 1);
  }

  lemma PartnerIsRight(h: Heap, k: nat, b: nat)
    requires Shape(h, k) && b in h.tiles && !h.tiles[b].isFree && MIN_LEVEL < h.tiles[b].level < BLOCKS
    requires !Bit(b, h.tiles[b].level - 1)
    ensures var l := h.tiles[b].level - 1;
            && |h.lists| == BLOCKS && h.tiles[b] == Tile(l + 1, false) && b + Pow2(l) !in h.tiles && BuddyOf(b, l) == b + Pow2(l)
  {
    RightHalfIsNew(h, b);
    XorPow2(b, h.tiles[b].level - 1);
  }

  lemma {:induction false} UnsplitTo(h: Heap, k: nat, b: nat, target: nat)
    requires Shape(h, k) && b in h.tiles && !h.tiles[b].isFree
    requires MIN_LEVEL <= target <= h.tiles[b].level < BLOCKS
    requires BitsClear(b, target, h.tiles[b].level)
    ensures Shape(SplitTo(h, b, target), k)
    ensures b in SplitTo(h, b, target).tiles && SplitTo(h, b, target).tiles[b] == Tile(target, false)
    ensures Free(SplitTo(h, b, target), k, b) == Free(h, k, b)
    decreases h.tiles[b].level
  {
    SplitToKeeps(h, k, b, target);
    if h.tiles[b].level > target {
      UnsplitOnce(h, k, b);
      UnsplitTo(SplitOnce(h, b), k, b, target);
      ReleaseKeepsShape(SplitOnce(h, b), k, b);
    }
  }

  /** The block that merging leaves contains the block it started from; it is larger as soon
      as one merge took place. */
  lemma {:induction false} CoalesceGrows(h: Heap, k: nat, b: nat) returns (c: nat)
    requires Shape(h, k) && b in h.tiles && h.tiles[b].isFree
    ensures Shape(Coalesce(h, k, b), k) && c in Coalesce(h, k, b).tiles
    ensures c <= ParentOf(h, b) || !CanMerge(h, b)
    ensures c <= b && b + Pow2(h.tiles[b].level) <= c + Pow2(Coalesce(h, k, b).tiles[c].level)
    ensures Coalesce(h, k, b).tiles[c].level >= h.tiles[b].level + (if CanMerge(h, b) then 1 else 0)
    decreases h.root - h.tiles[b].level
  {
    assert TileOk(h, b);
    if CanMerge(h, b) {
      MergeKeepsShape(h, k, b);
      XorPow2(b, h.tiles[b].level);
      c := CoalesceGrows(MergeOnce(h, b), k, ParentOf(h, b));
    } else {
      c := b;
    }
  }

  /** A right half that is given back is either left alone or swallowed by its left neighbour. */
  lemma RightHalfGone(h: Heap, k: nat, b: nat)
    requires Shape(h, k) && b in h.tiles && h.tiles[b].isFree && Bit(b, h.tiles[b].level)
    ensures var r := Coalesce(h, k, b); b in r.tiles ==> r.tiles[b].level <= h.tiles[b].level
  {
    XorPow2(b, h.tiles[b].level);
    var c := CoalesceGrows(h, k, b);
    if CanMerge(h, b) {
      var r := Coalesce(h, k, b);
      assert b in r.tiles ==> Apart(r, c, b);
    }
  }

  /** Merging back stops at the first half that is not a left half. */
  lemma {:induction false} UnsplitStops(h: Heap, k: nat, b: nat, target: nat)
    requires Shape(h, k) && b in h.tiles && !h.tiles[b].isFree
    requires MIN_LEVEL <= target <= h.tiles[b].level < BLOCKS
    requires !BitsClear(b, target, h.tiles[b].level)
    ensures Shape(SplitTo(h, b, target), k)
    ensures b in SplitTo(h, b, target).tiles && SplitTo(h, b, target).tiles[b] == Tile(target, false)
    ensures var r := Free(SplitTo(h, b, target), k, b);
            b in r.tiles ==> r.tiles[b].level < h.tiles[b].level
    decreases h.tiles[b].level
  {
    SplitToKeeps(h, k, b, target);
    SplitKeeps(h, k, b);
    SplitOnceLists(h, b, h.tiles[b].level - 1);
    var g := SplitOnce(h, b);
    if BitsClear(b, target, h.tiles[b].level - 1) {
      StopsAtOnce(g, k, b, target);
    } else {
      UnsplitStops(g, k, b, target);
    }
    assert SplitTo(h, b, target) == SplitTo(g, b, target);
  }

  /** Merging goes back as far as the bits allow, to a block that is a right half. */
  lemma StopsAtOnce(g: Heap, k: nat, b: nat, target: nat)
    requires Shape(g, k) && b in g.tiles && !g.tiles[b].isFree && MIN_LEVEL <= target <= g.tiles[b].level < BLOCKS
    requires BitsClear(b, target, g.tiles[b].level) && Bit(b, g.tiles[b].level)
    ensures Shape(SplitTo(g, b, target), k)
    ensures b in SplitTo(g, b, target).tiles && SplitTo(g, b, target).tiles[b] == Tile(target, false)
    ensures var r := Free(SplitTo(g, b, target), k, b);
            b in r.tiles ==> r.tiles[b].level <= g.tiles[b].level
  {
    UnsplitTo(g, k, b, target);
    ReleaseKeepsShape(g, k, b);
    RightHalfGone(Release(g, b), k, b);
  }

  /** A merge that does take place changes the heap. */
  lemma MergeChanges(h: Heap, k: nat, b: nat)
    requires Shape(h, k) && b in h.tiles && h.tiles[b].isFree
    ensures Coalesce(h, k, b) == h <==> !CanMerge(h, b)
  {
    if CanMerge(h, b) {
      var c := CoalesceGrows(h, k, b);
      assert c in h.tiles ==> Apart(h, c, b);
    }
  }

  /** Freeing what was just allocated restores the heap exactly (every block and the order of
      every free list) if and only if the head block of the list it was cut from has no address
      bit between the two levels and has no free partner. */
  lemma FreeUndoesAllocExactly(h: Heap, k: nat, level: nat)
    requires Inv(h, k) && MIN_LEVEL <= level < BLOCKS && Alloc(h, level).1.Some?
    ensures Inv(Alloc(h, level).0, k)
    ensures Alloc(h, level).1.value in h.tiles
    ensures Alloc(h, level).1.value in Alloc(h, level).0.tiles
    ensures Alloc(h, level).0.tiles[Alloc(h, level).1.value] == Tile(level, false)
    ensures var b := Alloc(h, level).1.value;
            Free(Alloc(h, level).0, k, b) == h <==>
            BitsClear(b, level, Lowest(h.lists, level)) && !CanMerge(h, b)
  {
    AllocKeeps(h, k, level);
    var i := Lowest(h.lists, level);
    var b := h.lists[i][0];
    TakeHeadKeeps(h, k, i);
    if BitsClear(b, level, i) {
      UnsplitTo(TakeHead(h, i), k, b, level);
      UntakeHead(h, i);
      MergeChanges(h, k, b);
    } else {
      UnsplitStops(TakeHead(h, i), k, b, level);
    }
  }

  lemma UntakeHead(h: Heap, i: nat)
    requires Listed(h) && i < BLOCKS && h.lists[i] != []
    ensures h.lists[i][0] in h.tiles && TakeHead(h, i).tiles[h.lists[i][0]].level == i
    ensures Release(TakeHead(h, i), h.lists[i][0]) == h
  {
    TakeHeadListing(h, i);
    var b := h.lists[i][0];
    assert Release(TakeHead(h, i), b).tiles == h.tiles;
    assert [b] + h.lists[i][1..] == h.lists[i];
    assert Release(TakeHead(h, i), b).lists == h.lists;
  }

  lemma AlignedBitsClear(b: nat, from: nat, to: nat)
    requires Aligned(b, to)
    ensures BitsClear(b, from, to)
  {
    forall j | from <= j < to ensures !Bit(b, j) {
      AlignedWeaken(b, j + 1, to);
      AlignedWeaken(b, j, to);
      AlignedBit(b, j);
    }
  }

  lemma RootHasNoPartner(h: Heap, b: nat)
    requires Tiled(h) && b in h.tiles && h.tiles[b].level == h.root
    ensures !CanMerge(h, b)
  {
    XorPow2(b, h.root);
    assert TileOk(h, b) && Apart(h, h.base, b);
    assert BuddyOf(b, h.root) in h.tiles ==> TileOk(h, BuddyOf(b, h.root));
  }

  /** Within the alignment of the base, or with the root block inside it, the undo is always exact. */
  lemma FreeUndoesAlloc(h: Heap, k: nat, level: nat)
    requires Inv(h, k) && MIN_LEVEL <= level < BLOCKS && Alloc(h, level).1.Some?
    requires Lowest(h.lists, level) < k || k == h.root
    ensures Inv(Alloc(h, level).0, k)
    ensures Alloc(h, level).1.value in Alloc(h, level).0.tiles
    ensures Alloc(h, level).0.tiles[Alloc(h, level).1.value] == Tile(level, false)
    ensures Free(Alloc(h, level).0, k, Alloc(h, level).1.value) == h
  {
    FreeUndoesAllocExactly(h, k, level);
    var i := Lowest(h.lists, level);
    var b := h.lists[i][0];
    TakeHeadListing(h, i);
    assert TileOk(h, b);
    AlignedBitsClear(b, level, i);
    if i < k {
      assert !FreePair(h, k, b);
    } else {
      RootHasNoPartner(h, b);
    }
  }

  const HEAP_START_ADDRESS: nat := 0x600000
  const HEAP_SIZE: nat := 512 * 1024 * 1024 - 0x600000

  function Shifted(odd: nat, n: nat): nat { if n == 0 then odd else 2 * Shifted(odd, n - 1) }

  lemma {:induction false} ShiftedBits(odd: nat, n: nat)
    requires odd % 2 == 1
    ensures Aligned(Shifted(odd, n), n) && Bit(Shifted(odd, n), n)
  {
    if n > 0 {
      ShiftedBits(odd, n - 1);
    }
  }

  /** The shipped heap starts at 3 * 2^21: its root block has level 28, its base is aligned to
      2^21 and no further. */
  lemma ShippedHeap()
    ensures Log2(HEAP_SIZE) == 28
    ensures Aligned(HEAP_START_ADDRESS, 21) && Bit(HEAP_START_ADDRESS, 21)
    ensures Inv(Initial(HEAP_START_ADDRESS, 28), 21)
  {
    assert Pow2(7) == 0x80 && Pow2(14) == 0x4000 && Pow2(21) == 0x200000 && Pow2(28) == 0x10000000;
    Log2Unique(HEAP_SIZE, 28);
    assert Shifted(3, 7) == 0x180 && Shifted(3, 14) == 0xC000 && Shifted(3, 21) == HEAP_START_ADDRESS;
    ShiftedBits(3, 21);
    InitialInv(HEAP_START_ADDRESS, 28, 21);
  }

  /** The shipped base has bits 21 and 22 set and no other. */
  lemma ShippedBits(j: nat)
    requires j <= 28
    ensures Bit(HEAP_START_ADDRESS, j) <==> j == 21 || j == 22
  {
    assert Shifted(3, 7) == 0x180 && Shifted(3, 14) == 0xC000 && Shifted(3, 21) == HEAP_START_ADDRESS;
    ShiftedBit(3, 21, j);
    if j >= 21 {
      SmallBit(j - 21);
    }
  }

  lemma {:induction false} ShiftedBit(a: nat, n: nat, j: nat)
    ensures Bit(Shifted(a, n), j) <==> j >= n && Bit(a, j - n)
  {
    if n > 0 && j > 0 {
      ShiftedBit(a, n - 1, j - 1);
    }
  }

  lemma {:induction false} SmallBit(j: nat)
    ensures Bit(3, j) <==> j < 2
  {
    if j >= 2 {
      NoBit(j - 2);
      assert Bit(3, j) == Bit(1, j - 1) == Bit(0, j - 2);
    }
  }

  lemma {:induction false} NoBit(j: nat)
    ensures !Bit(0, j)
  {
    if j > 0 {
      NoBit(j - 1);
    }
  }

  /** On the fresh shipped heap the first allocation can be undone exactly from level 23 on: after
      freeing a smaller block the free blocks do not merge back into the root block. */
  lemma ShippedHeapFragments(level: nat)
    requires MIN_LEVEL <= level <= 28
    ensures Inv(Initial(HEAP_START_ADDRESS, 28), 21)
    ensures var h := Initial(HEAP_START_ADDRESS, 28);
            && Alloc(h, level).1 == Some(HEAP_START_ADDRESS)
            && Inv(Alloc(h, level).0, 21)
            && HEAP_START_ADDRESS in Alloc(h, level).0.tiles
            && !Alloc(h, level).0.tiles[HEAP_START_ADDRESS].isFree
            && (Free(Alloc(h, level).0, 21, HEAP_START_ADDRESS) == h <==> level >= 23)
  {
    ShippedHeap();
    var h := Initial(HEAP_START_ADDRESS, 28);
    assert h.lists[28] == [HEAP_START_ADDRESS];
    assert Lowest(h.lists, level) == 28;
    FreeUndoesAllocExactly(h, 21, level);
    assert BitsClear(HEAP_START_ADDRESS, level, 28) <==> level >= 23 by {
      ShippedBits(22);
      forall j | level <= j < 28 ensures Bit(HEAP_START_ADDRESS, j) <==> j == 21 || j == 22 {
        ShippedBits(j);
      }
    }
    RootHasNoPartner(h, HEAP_START_ADDRESS);
  }

  // ---------------------------------------------------------------- free, then allocate

  lemma {:induction false} CoalesceLeavesBlock(h: Heap, k: nat, b: nat, level: nat)
    requires Shape(h, k) && b in h.tiles && h.tiles[b].isFree && level <= h.tiles[b].level
    ensures Listed(Coalesce(h, k, b))
    ensures Lowest(Coalesce(h, k, b).lists, level) < BLOCKS
    decreases h.root - h.tiles[b].level
  {
    assert TileOk(h, b);
    if CanMerge(h, b) {
      MergeKeepsShape(h, k, b);
      CoalesceLeavesBlock(MergeOnce(h, b), k, ParentOf(h, b), level);
    } else {
      assert ListedAt(h, h.tiles[b].level);
      assert b in h.lists[h.tiles[b].level];
    }
  }

  /** A request no larger than a block just freed never fails. */
  lemma FreeThenAlloc(h: Heap, k: nat, b: nat, level: nat)
    requires Inv(h, k) && b in h.tiles && !h.tiles[b].isFree && level <= h.tiles[b].level
    ensures Inv(Free(h, k, b), k)
    ensures level < BLOCKS && Alloc(Free(h, k, b), level).1.Some?
  {
    FreeKeeps(h, k, b);
    assert TileOk(h, b);
    ReleaseKeepsShape(h, k, b);
    CoalesceLeavesBlock(Release(h, b), k, b, level);
  }
}
