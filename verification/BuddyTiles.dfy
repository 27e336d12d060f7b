/** The buddy allocator on values: which blocks tile the root block, and which are on
    which free list. The functions here specify the imperative manager of
    BuddyManager.dfy; the lemmas say what every call keeps. */
module BuddyTiles {
  import opened Dyadic
  import opened Options

  const MIN_LEVEL: nat := 5   // a 24-byte header never fits a smaller block
  const MAX_LEVEL: nat := 32
  const BLOCKS: nat := MAX_LEVEL + 1

  datatype Tile = Tile(level: nat, isFree: bool)

  /** tiles: live block address -> block; lists[l]: free list of level l, head first. */
  datatype Heap = Heap(base: nat, root: nat, tiles: map<nat, Tile>, lists: seq<seq<nat>>) {
    function End(): nat { base + Pow2(root) }
  }

  // ---------------------------------------------------------------- sequences

  ghost predicate NoDup(s: seq<nat>) {
    forall i, j :: 0 <= i < j < |s| ==> s[i] != s[j]
  }

  /** s without its first x. */
  function Remove(s: seq<nat>, x: nat): seq<nat> {
    if s == [] then [] else if s[0] == x then s[1..] else [s[0]] + Remove(s[1..], x)
  }

  lemma {:induction false} RemoveMembers(s: seq<nat>, x: nat)
    requires NoDup(s)
    ensures NoDup(Remove(s, x))
    ensures forall y :: y in Remove(s, x) <==> y in s && y != x
  {
    if s != [] {
      RemoveMembers(s[1..], x);
      assert s == [s[0]] + s[1..];
      assert s[0] !in s[1..];
    }
  }

  // ---------------------------------------------------------------- invariants

  /** The block at a lies in the root block and ends where the next one starts. */
  ghost predicate TileOk(h: Heap, a: nat)
    requires a in h.tiles
  {
    && h.base <= a && MIN_LEVEL <= h.tiles[a].level <= h.root
    && a + Pow2(h.tiles[a].level) <= h.End()
    && (a + Pow2(h.tiles[a].level) == h.End() || a + Pow2(h.tiles[a].level) in h.tiles)
  }

  ghost predicate Apart(h: Heap, a: nat, b: nat)
    requires a in h.tiles && b in h.tiles
  {
    a < b ==> a + Pow2(h.tiles[a].level) <= b
  }

  /** Every block lies in the root block, is followed by another block or by the end of
      the root block, and no block starts inside another. */
  ghost predicate Tiled(h: Heap) {
    && h.base in h.tiles
    && (forall a {:trigger TileOk(h, a)} :: a in h.tiles ==> TileOk(h, a))
    && (forall a, b {:trigger Apart(h, a, b)} :: a in h.tiles && b in h.tiles ==> Apart(h, a, b))
  }

  ghost predicate ListedAt(h: Heap, l: nat)
    requires l < |h.lists|
  {
    && NoDup(h.lists[l])
    && (forall a :: a in h.lists[l] <==> a in h.tiles && h.tiles[a] == Tile(l, true))
  }

  /** The free list of level l holds exactly the free blocks of level l, each once. */
  ghost predicate Listed(h: Heap) {
    && |h.lists| == BLOCKS
    && (forall l {:trigger ListedAt(h, l)} :: 0 <= l < BLOCKS ==> ListedAt(h, l))
  }

  function Min(a: nat, b: nat): nat { if a < b then a else b }

  /** Blocks sit at multiples of their size, as far as the alignment 2^k of the base goes. */
  ghost predicate OnGrid(h: Heap, k: nat) {
    && k <= h.root <= MAX_LEVEL && h.base > 0
    && Aligned(h.base, k)
    && (forall a :: a in h.tiles ==> Aligned(a, Min(h.tiles[a].level, k)))
  }

  /** The address getBuddy computes for a block of level l at a. */
  function BuddyOf(a: nat, l: nat): nat { Xor(a, Pow2(l)) }

  ghost predicate FreePair(h: Heap, k: nat, a: nat) {
    && a in h.tiles && h.tiles[a].isFree && h.tiles[a].level < k
    && BuddyOf(a, h.tiles[a].level) in h.tiles
    && h.tiles[BuddyOf(a, h.tiles[a].level)] == h.tiles[a]
  }

  /** No two XOR partners below level k are both free, except perhaps b and its partner. */
  ghost predicate CoalescedBut(h: Heap, k: nat, b: nat) {
    forall a :: FreePair(h, k, a) ==> a == b || BuddyOf(a, h.tiles[a].level) == b
  }

  ghost predicate Coalesced(h: Heap, k: nat) {
    forall a :: !FreePair(h, k, a)
  }

  ghost predicate Shape(h: Heap, k: nat) {
    Tiled(h) && Listed(h) && OnGrid(h, k)
  }

  /** What holds between calls. */
  ghost predicate Inv(h: Heap, k: nat) {
    Shape(h, k) && Coalesced(h, k)
  }

  // ---------------------------------------------------------------- operations

  function Initial(base: nat, root: nat): Heap
    requires root < BLOCKS
  {
    Heap(base, root, map[base := Tile(root, true)],
         seq(BLOCKS, (i: nat) => if i == root then [base] else []))
  }

  /** The head of list i leaves its list; it counts as taken from here on. */
  function TakeHead(h: Heap, i: nat): Heap
    requires i < |h.lists| && h.lists[i] != [] && h.lists[i][0] in h.tiles
  {
    var b := h.lists[i][0];
    h.(tiles := h.tiles[b := Tile(h.tiles[b].level, false)], lists := h.lists[i := h.lists[i][1..]])
  }

  /** A taken block of level l + 1 becomes a taken left half and a free right half. */
  function SplitOnce(h: Heap, b: nat): Heap
    requires b in h.tiles && 0 < h.tiles[b].level <= |h.lists|
  {
    var l := h.tiles[b].level - 1;
    var right := b + Pow2(l);
    h.(tiles := h.tiles[b := Tile(l, false)][right := Tile(l, true)],
       lists := h.lists[l := [right] + h.lists[l]])
  }

  function SplitTo(h: Heap, b: nat, target: nat): Heap
    requires b in h.tiles && h.tiles[b].level <= |h.lists|
    decreases if b in h.tiles then h.tiles[b].level else 0
  {
    if h.tiles[b].level <= target then h else SplitTo(SplitOnce(h, b), b, target)
  }

  /** The lowest level >= l whose free list is not empty; BLOCKS if there is none. */
  function Lowest(lists: seq<seq<nat>>, l: nat): (i: nat)
    requires |lists| == BLOCKS
    ensures i < BLOCKS ==> l <= i && lists[i] != []
    ensures forall j :: l <= j < Min(i, BLOCKS) ==> lists[j] == []
    ensures l <= BLOCKS ==> i <= BLOCKS
    decreases BLOCKS - l
  {
    if l >= BLOCKS then l else if lists[l] != [] then l else Lowest(lists, l + 1)
  }

  /** Allocation of a block of the given level: the new heap and the block. */
  function Alloc(h: Heap, level: nat): (Heap, Option<nat>)
    requires Listed(h) && level < BLOCKS
  {
    var i := Lowest(h.lists, level);
    if i >= BLOCKS then (h, None)
    else
      var b := h.lists[i][0];
      assert b in h.lists[i] && ListedAt(h, i);
      (SplitTo(TakeHead(h, i), b, level), Some(b))
  }

  /** A taken block goes to the front of its free list. */
  function Release(h: Heap, b: nat): Heap
    requires b in h.tiles && h.tiles[b].level < |h.lists|
  {
    var l := h.tiles[b].level;
    h.(tiles := h.tiles[b := Tile(l, true)], lists := h.lists[l := [b] + h.lists[l]])
  }

  predicate CanMerge(h: Heap, b: nat)
    requires b in h.tiles
  {
    var p := BuddyOf(b, h.tiles[b].level);
    p in h.tiles && h.tiles[p] == Tile(h.tiles[b].level, true)
  }

  function ParentOf(h: Heap, b: nat): nat
    requires b in h.tiles
  {
    Min(b, BuddyOf(b, h.tiles[b].level))
  }

  /** Two free XOR partners leave their list and become one free block a level up. */
  function MergeOnce(h: Heap, b: nat): Heap
    requires b in h.tiles && h.tiles[b].level + 1 < |h.lists|
  {
    var l := h.tiles[b].level;
    var p := BuddyOf(b, l);
    var parent := Min(b, p);
    h.(tiles := (h.tiles - {b, p})[parent := Tile(l + 1, true)],
       lists := h.lists[l := Remove(Remove(h.lists[l], p), b)][l + 1 := [parent] + h.lists[l + 1]])
  }

  /** Merging upwards for as long as the partner is free. */
  function Coalesce(h: Heap, k: nat, b: nat): Heap
    requires Shape(h, k) && b in h.tiles && h.tiles[b].isFree
    decreases if b in h.tiles then h.root - h.tiles[b].level else 0
  {
    if CanMerge(h, b) then
      MergeKeepsShape(h, k, b);
      Coalesce(MergeOnce(h, b), k, ParentOf(h, b))
    else h
  }

  function Free(h: Heap, k: nat, b: nat): Heap
    requires Shape(h, k) && b in h.tiles && !h.tiles[b].isFree
  {
    ReleaseKeepsShape(h, k, b);
    Coalesce(Release(h, b), k, b)
  }

  // ---------------------------------------------------------------- where partners are

  /** The block that covers a given point of the root block. */
  lemma {:induction false} Cover(h: Heap, from: nat, x: nat) returns (c: nat)
    requires Tiled(h) && from in h.tiles && from <= x < h.End()
    ensures c in h.tiles && c <= x < c + Pow2(h.tiles[c].level)
    decreases x - from
  {
    var next := from + Pow2(h.tiles[from].level);
    if x < next {
      c := from;
    } else {
      assert TileOk(h, from);
      c := Cover(h, next, x);
    }
  }

  /** A multiple x of 2^n with a block starting in the 2^n bytes after it is itself the
      start of a block. */
  lemma CoverIsStart(h: Heap, k: nat, x: nat, n: nat, a: nat)
    requires Tiled(h) && OnGrid(h, k) && n <= k && Aligned(x, n) && h.base <= x
    requires a in h.tiles && x < a < x + Pow2(n)
    ensures x in h.tiles && x + Pow2(h.tiles[x].level) <= a
  {
    assert TileOk(h, a);
    var c := Cover(h, h.base, x);
    var m := h.tiles[c].level;
    assert Apart(h, c, a);
    if c < x {
      var q := Min(n, Min(m, k));
      AlignedWeaken(c, q, Min(m, k));
      AlignedWeaken(x, q, n);
      AlignedGap(c, x, q);
      if q < n {
        assert false;
      }
      AlignedPow2(m, n);
      AlignedSum(c, Pow2(m), n);
      AlignedGap(x, c + Pow2(m), n);
      assert false;
    }
  }

  /** Below the alignment of the base, the partner of a block smaller than the root is always
      the start of a live block of at most the same level. */
  lemma BuddyIsLive(h: Heap, k: nat, a: nat)
    requires Tiled(h) && OnGrid(h, k) && a in h.tiles && h.tiles[a].level < k
    ensures BuddyOf(a, h.tiles[a].level) in h.tiles
    ensures h.tiles[BuddyOf(a, h.tiles[a].level)].level <= h.tiles[a].level
  {
    var l := h.tiles[a].level;
    assert TileOk(h, a);
    XorPow2(a, l);
    AlignedBit(a, l);
    AlignedPow2(h.root, l + 1);
    AlignedWeaken(h.base, l + 1, k);
    AlignedSum(h.base, Pow2(h.root), l + 1);
    if Bit(a, l) {
      var x := a - Pow2(l);
      if x < h.base {
        AlignedGap(x, h.base, l + 1);
        assert false;
      }
      CoverIsStart(h, k, x, l + 1, a);
      if h.tiles[x].level > l {
        Pow2Monotone(l, h.tiles[x].level);
        assert false;
      }
    } else {
      var x := a + Pow2(l);
      AlignedPow2(l, l);
      AlignedSum(a, Pow2(l), l);
      BitFlips(a, l);
      AlignedBit(x, l);
      assert x != h.End();
      if h.tiles[x].level > l {
        AlignedWeaken(x, l + 1, Min(h.tiles[x].level, k));
        assert false;
      }
    }
  }

  // ---------------------------------------------------------------- what the steps keep

  lemma InitialInv(base: nat, root: nat, k: nat)
    requires MIN_LEVEL <= root <= MAX_LEVEL && k <= root && base > 0 && Aligned(base, k)
    ensures Inv(Initial(base, root), k)
  {
    var h := Initial(base, root);
    XorPow2(base, root);
    assert TileOk(h, base);
  }

  lemma TakeHeadTiling(h: Heap, i: nat)
    requires Tiled(h) && i < |h.lists| && h.lists[i] != [] && h.lists[i][0] in h.tiles
    ensures Tiled(TakeHead(h, i))
  {
    var h' := TakeHead(h, i);
    forall a | a in h'.tiles ensures TileOk(h', a) { assert TileOk(h, a); }
    forall a, c | a in h'.tiles && c in h'.tiles ensures Apart(h', a, c) { assert Apart(h, a, c); }
  }

  lemma TakeHeadListing(h: Heap, i: nat)
    requires Listed(h) && i < BLOCKS && h.lists[i] != []
    ensures h.lists[i][0] in h.tiles && h.tiles[h.lists[i][0]] == Tile(i, true)
    ensures Listed(TakeHead(h, i))
  {
    var b := h.lists[i][0];
    assert ListedAt(h, i) && b in h.lists[i];
    var h' := TakeHead(h, i);
    assert h.lists[i] == [b] + h.lists[i][1..];
    forall l | 0 <= l < BLOCKS ensures ListedAt(h', l) {
      assert ListedAt(h, l);
    }
  }

  lemma TakeHeadKeeps(h: Heap, k: nat, i: nat)
    requires Shape(h, k) && i < BLOCKS && h.lists[i] != []
    ensures h.lists[i][0] in h.tiles && h.tiles[h.lists[i][0]] == Tile(i, true)
    ensures Shape(TakeHead(h, i), k)
    ensures Coalesced(h, k) ==> Coalesced(TakeHead(h, i), k)
  {
    TakeHeadListing(h, i);
    TakeHeadTiling(h, i);
    if Coalesced(h, k) {
      forall a ensures !FreePair(TakeHead(h, i), k, a) {
        assert !FreePair(h, k, a);
      }
    }
  }

  lemma SplitTileOk(h: Heap, b: nat, a: nat)
    requires Tiled(h) && b in h.tiles && MIN_LEVEL < h.tiles[b].level <= |h.lists|
    requires a in SplitOnce(h, b).tiles
    ensures TileOk(SplitOnce(h, b), a)
  {
    assert TileOk(h, b);
    if a in h.tiles {
      assert TileOk(h, a);
    }
  }

  lemma SplitApart(h: Heap, b: nat, a: nat, c: nat)
    requires Tiled(h) && b in h.tiles && MIN_LEVEL < h.tiles[b].level <= |h.lists|
    requires b + Pow2(h.tiles[b].level - 1) !in h.tiles
    requires a in SplitOnce(h, b).tiles && c in SplitOnce(h, b).tiles
    ensures Apart(SplitOnce(h, b), a, c)
  {
    if a !in h.tiles && c in h.tiles {
      assert Apart(h, b, c);
    } else if a in h.tiles && c !in h.tiles {
      assert Apart(h, a, b) && Apart(h, b, a);
    } else if a in h.tiles && c in h.tiles {
      assert Apart(h, a, c);
    }
  }

  lemma RightHalfIsNew(h: Heap, b: nat)
    requires Tiled(h) && b in h.tiles && h.tiles[b].level > 0
    ensures b + Pow2(h.tiles[b].level - 1) !in h.tiles
  {
    var right := b + Pow2(h.tiles[b].level - 1);
    assert right in h.tiles ==> Apart(h, b, right);
  }

  lemma SplitTiling(h: Heap, b: nat)
    requires Tiled(h) && b in h.tiles && MIN_LEVEL < h.tiles[b].level <= |h.lists|
    ensures Tiled(SplitOnce(h, b))
    ensures b + Pow2(h.tiles[b].level - 1) !in h.tiles
  {
    RightHalfIsNew(h, b);
    var g := SplitOnce(h, b);
    forall a | a in g.tiles ensures TileOk(g, a) {
      SplitTileOk(h, b, a);
    }
    forall a, c | a in g.tiles && c in g.tiles ensures Apart(g, a, c) {
      SplitApart(h, b, a, c);
    }
  }

  lemma SplitListing(h: Heap, b: nat)
    requires Listed(h) && b in h.tiles && !h.tiles[b].isFree && 0 < h.tiles[b].level <= BLOCKS
    requires b + Pow2(h.tiles[b].level - 1) !in h.tiles
    ensures Listed(SplitOnce(h, b))
  {
    var h' := SplitOnce(h, b);
    forall l | 0 <= l < BLOCKS ensures ListedAt(h', l) {
      assert ListedAt(h, l);
    }
  }

  lemma SplitCoalesced(h: Heap, k: nat, b: nat)
    requires Coalesced(h, k) && OnGrid(h, k)
    requires b in h.tiles && !h.tiles[b].isFree && 0 < h.tiles[b].level <= |h.lists|
    requires b + Pow2(h.tiles[b].level - 1) !in h.tiles
    ensures Coalesced(SplitOnce(h, b), k)
  {
    var h' := SplitOnce(h, b);
    var l := h.tiles[b].level - 1;
    var right := b + Pow2(l);
    if l < k {
      AlignedWeaken(b, l + 1, Min(l + 1, k));
      AlignedWeaken(b, l, l + 1);
      AlignedBit(b, l);
      XorPow2(b, l);
      XorInvolution(b, l);
    }
    forall a ensures !FreePair(h', k, a) {
      assert !FreePair(h, k, a);
      if FreePair(h', k, a) {
        XorInvolution(a, h'.tiles[a].level);
        assert false;
      }
    }
  }

  lemma SplitKeeps(h: Heap, k: nat, b: nat)
    requires Shape(h, k) && b in h.tiles && !h.tiles[b].isFree && MIN_LEVEL < h.tiles[b].level <= BLOCKS
    ensures Shape(SplitOnce(h, b), k)
    ensures Coalesced(h, k) ==> Coalesced(SplitOnce(h, b), k)
  {
    assert TileOk(h, b);
    SplitTiling(h, b);
    SplitListing(h, b);
    var l := h.tiles[b].level - 1;
    AlignedWeaken(b, Min(l, k), Min(l + 1, k));
    AlignedPow2(l, Min(l, k));
    AlignedSum(b, Pow2(l), Min(l, k));
    if Coalesced(h, k) {
      SplitCoalesced(h, k, b);
    }
  }

  lemma ReleaseKeepsShape(h: Heap, k: nat, b: nat)
    requires Shape(h, k) && b in h.tiles && !h.tiles[b].isFree
    ensures h.tiles[b].level < BLOCKS
    ensures Shape(Release(h, b), k)
  {
    assert TileOk(h, b);
    var h' := Release(h, b);
    forall l | 0 <= l < BLOCKS ensures ListedAt(h', l) {
      assert ListedAt(h, l);
    }
    forall a | a in h'.tiles ensures TileOk(h', a) { assert TileOk(h, a); }
    forall a, c | a in h'.tiles && c in h'.tiles ensures Apart(h', a, c) { assert Apart(h, a, c); }
  }

  lemma ReleaseCoalescing(h: Heap, k: nat, b: nat)
    requires Coalesced(h, k) && b in h.tiles && h.tiles[b].level < |h.lists|
    ensures CoalescedBut(Release(h, b), k, b)
  {
    var h' := Release(h, b);
    forall a | FreePair(h', k, a)
      ensures a == b || BuddyOf(a, h'.tiles[a].level) == b
    {
      assert !FreePair(h, k, a);
    }
  }

  /** A merge drops the upper of two adjacent blocks and doubles the lower one. */
  lemma MergeAddresses(h: Heap, b: nat) returns (lo: nat, hi: nat)
    requires Tiled(h) && b in h.tiles && CanMerge(h, b) && h.root < |h.lists|
    ensures h.tiles[b].level < h.root
    ensures lo == ParentOf(h, b) && hi == lo + Pow2(h.tiles[b].level)
    ensures lo in h.tiles && h.tiles[lo].level == h.tiles[b].level
    ensures hi in h.tiles && h.tiles[hi].level == h.tiles[b].level
    ensures h.tiles[b].isFree ==> h.tiles[lo].isFree && h.tiles[hi].isFree
    ensures MergeOnce(h, b).tiles == (h.tiles - {hi})[lo := Tile(h.tiles[b].level + 1, true)]
  {
    var l := h.tiles[b].level;
    var p := BuddyOf(b, l);
    XorPow2(b, l);
    lo := Min(b, p);
    hi := lo + Pow2(l);
    assert TileOk(h, hi) && TileOk(h, lo);
    Pow2Injective(l + 1, h.root);
  }

  lemma MergeTileOk(h: Heap, l: nat, lo: nat, hi: nat, h': Heap, a: nat)
    requires Tiled(h) && lo in h.tiles && h.tiles[lo].level == l < h.root
    requires hi == lo + Pow2(l) && hi in h.tiles && h.tiles[hi].level == l
    requires h'.tiles == (h.tiles - {hi})[lo := Tile(l + 1, true)] && h'.base == h.base && h'.root == h.root
    requires a in h'.tiles
    ensures TileOk(h', a)
  {
    if a == lo {
      assert TileOk(h, lo) && TileOk(h, hi);
    } else {
      assert TileOk(h, a) && Apart(h, a, lo) && Apart(h, lo, a);
    }
  }

  lemma MergeApart(h: Heap, l: nat, lo: nat, hi: nat, h': Heap, a: nat, c: nat)
    requires Tiled(h) && lo in h.tiles && h.tiles[lo].level == l < h.root
    requires hi == lo + Pow2(l) && hi in h.tiles && h.tiles[hi].level == l
    requires h'.tiles == (h.tiles - {hi})[lo := Tile(l + 1, true)]
    requires a in h'.tiles && c in h'.tiles
    ensures Apart(h', a, c)
  {
    assert Apart(h, a, c);
    if a == lo && c != lo {
      assert Apart(h, hi, c) && Apart(h, c, hi);
    }
  }

  lemma MergeTiling(h: Heap, b: nat)
    requires Tiled(h) && b in h.tiles && CanMerge(h, b) && h.root < |h.lists|
    ensures h.tiles[b].level < h.root
    ensures Tiled(MergeOnce(h, b))
  {
    var lo, hi := MergeAddresses(h, b);
    assert h.base in MergeOnce(h, b).tiles by {
      assert TileOk(h, lo);
    }
    forall a | a in MergeOnce(h, b).tiles ensures TileOk(MergeOnce(h, b), a) {
      MergeTileOk(h, h.tiles[b].level, lo, hi, MergeOnce(h, b), a);
    }
    forall a, c | a in MergeOnce(h, b).tiles && c in MergeOnce(h, b).tiles
      ensures Apart(MergeOnce(h, b), a, c)
    {
      MergeApart(h, h.tiles[b].level, lo, hi, MergeOnce(h, b), a, c);
    }
  }

  lemma MergeListing(h: Heap, b: nat)
    requires Listed(h) && b in h.tiles && h.tiles[b].isFree && CanMerge(h, b)
    requires h.tiles[b].level + 1 < BLOCKS && BuddyOf(b, h.tiles[b].level) != b
    ensures Listed(MergeOnce(h, b))
  {
    var h' := MergeOnce(h, b);
    var l := h.tiles[b].level;
    var p := BuddyOf(b, l);
    assert ListedAt(h, l);
    RemoveMembers(h.lists[l], p);
    RemoveMembers(Remove(h.lists[l], p), b);
    forall i | 0 <= i < BLOCKS ensures ListedAt(h', i) {
      assert ListedAt(h, i);
    }
  }

  lemma MergeKeepsShape(h: Heap, k: nat, b: nat)
    requires Shape(h, k) && b in h.tiles && h.tiles[b].isFree && CanMerge(h, b)
    ensures h.tiles[b].level < h.root
    ensures Shape(MergeOnce(h, b), k)
  {
    MergeTiling(h, b);
    var l := h.tiles[b].level;
    XorPow2(b, l);
    MergeListing(h, b);
    if l < k {
      AlignedBit(b, l);
    }
    assert Aligned(ParentOf(h, b), Min(l + 1, k));
  }

  lemma MergeCoalescing(h: Heap, k: nat, b: nat)
    requires b in h.tiles && h.tiles[b].level + 1 < |h.lists| && h.tiles[b].isFree && CanMerge(h, b)
    requires CoalescedBut(h, k, b)
    ensures CoalescedBut(MergeOnce(h, b), k, ParentOf(h, b))
  {
    var h' := MergeOnce(h, b);
    forall a | FreePair(h', k, a)
      ensures a == ParentOf(h, b) || BuddyOf(a, h'.tiles[a].level) == ParentOf(h, b)
    {
      if a != ParentOf(h, b) && BuddyOf(a, h'.tiles[a].level) != ParentOf(h, b) {
        assert FreePair(h, k, a);
        assert false;
      }
    }
  }

  lemma {:induction false} CoalesceKeeps(h: Heap, k: nat, b: nat)
    requires Shape(h, k) && b in h.tiles && h.tiles[b].isFree && CoalescedBut(h, k, b)
    ensures Inv(Coalesce(h, k, b), k)
    decreases h.root - h.tiles[b].level
  {
    assert TileOk(h, b);
    if CanMerge(h, b) {
      MergeKeepsShape(h, k, b);
      MergeCoalescing(h, k, b);
      CoalesceKeeps(MergeOnce(h, b), k, ParentOf(h, b));
    } else {
      forall a ensures !FreePair(h, k, a) {
        if FreePair(h, k, a) {
          XorInvolution(a, h.tiles[a].level);
          assert false;
        }
      }
    }
  }

  lemma {:induction false} SplitToKeeps(h: Heap, k: nat, b: nat, target: nat)
    requires Shape(h, k) && b in h.tiles && !h.tiles[b].isFree
    requires MIN_LEVEL <= target <= h.tiles[b].level < BLOCKS
    ensures Shape(SplitTo(h, b, target), k)
    ensures Coalesced(h, k) ==> Coalesced(SplitTo(h, b, target), k)
    ensures b in SplitTo(h, b, target).tiles && SplitTo(h, b, target).tiles[b] == Tile(target, false)
    decreases h.tiles[b].level
  {
    if h.tiles[b].level > target {
      SplitKeeps(h, k, b);
      SplitToKeeps(SplitOnce(h, b), k, b, target);
    }
  }

  /** Allocation keeps tiling, lists, alignment and coalescing, and hands out a block of
      exactly the requested level that was not in use. */
  lemma AllocKeeps(h: Heap, k: nat, level: nat)
    requires Inv(h, k) && MIN_LEVEL <= level < BLOCKS
    ensures Inv(Alloc(h, level).0, k)
    ensures Alloc(h, level).1.Some? ==>
              var b := Alloc(h, level).1.value;
              && b in h.tiles && h.tiles[b].isFree
              && b in Alloc(h, level).0.tiles && Alloc(h, level).0.tiles[b] == Tile(level, false)
  {
    var i := Lowest(h.lists, level);
    if i < BLOCKS {
      TakeHeadKeeps(h, k, i);
      SplitToKeeps(TakeHead(h, i), k, h.lists[i][0], level);
    }
  }

  lemma FreeKeeps(h: Heap, k: nat, b: nat)
    requires Inv(h, k) && b in h.tiles && !h.tiles[b].isFree
    ensures Inv(Free(h, k, b), k)
  {
    ReleaseKeepsShape(h, k, b);
    ReleaseCoalescing(h, k, b);
    CoalesceKeeps(Release(h, b), k, b);
  }
}
