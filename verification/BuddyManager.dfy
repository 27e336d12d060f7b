/** The buddy memory manager as the kernel runs it: block headers kept in the managed memory
    itself, intrusive doubly linked free lists, and a table of list heads. Every method is
    proved against the value-level operation of BuddyTiles. */
module BuddyManager {
  import opened Dyadic
  import opened BuddyTiles
  import opened Options
  import opened BuddyTheorems

  const HEADER_SIZE: nat := 24
  const BUDDY_MIN_BLOCK_SIZE: nat := 8
  const NULL: nat := 0

  datatype BlockState = FREE | SPLIT | ALLOCATED
  datatype BuddyStatus = BUDDY_OK | BUDDY_ERROR
  datatype Header = Header(level: nat, state: BlockState, next: nat, prev: nat)

  /** What reading a header at each address of the managed memory yields. Only the headers of
      live blocks mean anything; the others are user bytes or leftovers. */
  type Memory = map<nat, Header>

  // ---------------------------------------------------------------- sizes and levels

  function BlockSize(bytes: nat): nat {
    var size := if bytes + HEADER_SIZE < BUDDY_MIN_BLOCK_SIZE then BUDDY_MIN_BLOCK_SIZE else bytes + HEADER_SIZE;
    if And(size, size - 1) != 0 then Pow2(Log2(size) + 1) else size
  }

  function MemoryToLevel(size: nat): nat {
    if Pow2(Log2(size)) < size then Log2(size) + 1 else Log2(size)
  }

  function LevelFor(bytes: nat): nat { MemoryToLevel(BlockSize(bytes)) }

  lemma RoundedUp(bytes: nat) returns (m: nat)
    ensures BlockSize(bytes) == Pow2(m) && LevelFor(bytes) == m
    ensures bytes + HEADER_SIZE <= Pow2(m) < 2 * (bytes + HEADER_SIZE)
  {
    var size := bytes + HEADER_SIZE;
    Log2Bounds(size);
    AndPredecessor(size);
    m := if And(size, size - 1) != 0 then Log2(size) + 1 else Log2(size);
    Log2Pow2(m);
  }

  /** The level of a request is the least whose blocks hold the bytes and the header. */
  lemma LevelFits(bytes: nat)
    ensures bytes + HEADER_SIZE <= Pow2(LevelFor(bytes))
    ensures forall l: nat :: bytes + HEADER_SIZE <= Pow2(l) ==> LevelFor(bytes) <= l
    ensures LevelFor(bytes) >= MIN_LEVEL
    ensures LevelFor(bytes) < BLOCKS <==> bytes + HEADER_SIZE <= Pow2(MAX_LEVEL)
  {
    var m := RoundedUp(bytes);
    forall l: nat | bytes + HEADER_SIZE <= Pow2(l) ensures m <= l {
      if l < m {
        Pow2Monotone(l, m);
        assert false;
      }
    }
    assert Pow2(MIN_LEVEL) == 32;
    if m < MIN_LEVEL {
      Pow2Monotone(m, MIN_LEVEL);
      assert false;
    }
    if m < MAX_LEVEL {
      Pow2Monotone(m, MAX_LEVEL);
    }
  }

  /** Two requests served at the same time get bytes that do not overlap, neither one another's nor
      the other's header. */
  lemma UserAreasApart(h: Heap, k: nat, a: nat, n: nat, c: nat, m: nat)
    requires Inv(h, k) && a in Taken(h) && c in Taken(h) && a < c && Taken(h)[a] == LevelFor(n) && Taken(h)[c] == LevelFor(m)
    ensures h.base <= a && a + HEADER_SIZE + n <= c && c + HEADER_SIZE + m <= h.End()
  {
    LevelFits(n);
    LevelFits(m);
    HeldApart(h, k, a, c);
  }

  method Log2Loop(x: nat) returns (result: nat)
    ensures result == Log2(x)
  {
    result := 0;
    var y: nat := x / 2;
    while y != 0
      invariant Log2(x) == result + (if y == 0 then 0 else 1 + Log2(y))
      decreases y
    {
      result := result + 1;
      y := y / 2;
    }
  }

  /** The level of the root block: the managed size, rounded down to a power of two. */
  method RootLevel(size: nat) returns (maxLevel: nat)
    requires Pow2(MIN_LEVEL) <= size < Pow2(MAX_LEVEL + 1)
    ensures maxLevel == Log2(size) && MIN_LEVEL <= maxLevel <= MAX_LEVEL && Pow2(maxLevel) <= size
  {
    var log := Log2Loop(size);
    Log2Bounds(size);
    LevelInRange(log, size);
    maxLevel := Log2Loop(Pow2(log));
    Log2Pow2(log);
  }

  // ---------------------------------------------------------------- linked lists in memory

  ghost predicate NodeAt(mem: Memory, s: seq<nat>, i: nat)
    requires i < |s|
  {
    && s[i] in mem && s[i] != NULL
    && mem[s[i]].next == (if i + 1 < |s| then s[i + 1] else NULL)
    && mem[s[i]].prev == (if i > 0 then s[i - 1] else NULL)
  }

  /** s is the list that starts at head: acyclic, doubly linked, ended by NULL both ways. */
  ghost predicate Linked(mem: Memory, head: nat, s: seq<nat>) {
    && head == (if s == [] then NULL else s[0])
    && (forall i {:trigger NodeAt(mem, s, i)} :: 0 <= i < |s| ==> NodeAt(mem, s, i))
    && NoDup(s)
  }

  /** mem' differs from mem at most in the links of the blocks in s. */
  ghost predicate LinksOnly(mem: Memory, mem': Memory, s: seq<nat>) {
    && mem'.Keys == mem.Keys
    && (forall a :: a in mem ==> mem'[a].level == mem[a].level && mem'[a].state == mem[a].state)
    && (forall a :: a in mem && a !in s ==> mem'[a] == mem[a])
  }

  lemma LinkedFrame(mem: Memory, mem': Memory, head: nat, s: seq<nat>)
    requires Linked(mem, head, s)
    requires forall a :: a in s ==> a in mem ==> a in mem' && mem'[a] == mem[a]
    ensures Linked(mem', head, s)
  {
    forall i | 0 <= i < |s| ensures NodeAt(mem', s, i) {
      assert NodeAt(mem, s, i);
    }
  }

  function SetPrev(mem: Memory, a: nat, p: nat): Memory {
    if a != NULL && a in mem then mem[a := mem[a].(prev := p)] else mem
  }

  function SetNext(mem: Memory, a: nat, n: nat): Memory {
    if a in mem then mem[a := mem[a].(next := n)] else mem
  }

  function Popped(mem: Memory, b: nat): Memory
    requires b in mem
  {
    SetPrev(mem, mem[b].next, NULL)[b := SetPrev(mem, mem[b].next, NULL)[b].(next := NULL, prev := NULL)]
  }

  lemma PopLinked(mem: Memory, head: nat, s: seq<nat>)
    requires Linked(mem, head, s) && s != []
    ensures head == s[0] && head in mem && head != NULL
    ensures Linked(Popped(mem, head), mem[head].next, s[1..])
    ensures LinksOnly(mem, Popped(mem, head), s)
    ensures Popped(mem, head)[head] == mem[head].(next := NULL, prev := NULL)
  {
    assert NodeAt(mem, s, 0);
    if |s| > 1 {
      assert NodeAt(mem, s, 1);
    }
    forall i | 0 <= i < |s[1..]| ensures NodeAt(Popped(mem, head), s[1..], i) {
      assert NodeAt(mem, s, i + 1);
    }
  }

  function Pushed(mem: Memory, head: nat, b: nat): Memory {
    SetPrev(SetNext(mem, b, head), head, b)
  }

  lemma PushLinked(mem: Memory, head: nat, s: seq<nat>, b: nat)
    requires Linked(mem, head, s) && b !in s && b in mem && b != NULL && mem[b].prev == NULL
    ensures Linked(Pushed(mem, head, b), b, [b] + s)
    ensures LinksOnly(mem, Pushed(mem, head, b), [b] + s)
  {
    if s != [] {
      assert NodeAt(mem, s, 0);
    }
    forall i | 0 <= i < |[b] + s| ensures NodeAt(Pushed(mem, head, b), [b] + s, i) {
      if i > 0 {
        assert NodeAt(mem, s, i - 1);
      }
    }
  }

  function Unlinked(mem: Memory, b: nat): Memory
    requires b in mem
  {
    var m := if mem[b].prev != NULL then SetNext(mem, mem[b].prev, mem[b].next) else mem;
    SetPrev(m, m[b].next, m[b].prev)
  }

  function HeadAfter(mem: Memory, head: nat, b: nat): nat
    requires b in mem
  {
    if mem[b].prev != NULL then head else mem[b].next
  }

  lemma {:induction false} RemoveAt(s: seq<nat>, j: nat)
    requires NoDup(s) && j < |s|
    ensures Remove(s, s[j]) == s[..j] + s[j + 1..]
  {
    if j > 0 {
      assert s[0] != s[j];
      RemoveAt(s[1..], j - 1);
      assert s[1..][..j - 1] == s[1..j];
      assert s[1..][j - 1 + 1..] == s[j + 1..];
    }
  }

  lemma UnlinkNode(mem: Memory, s: seq<nat>, j: nat, t: seq<nat>, i: nat)
    requires NoDup(s) && j < |s| && t == s[..j] + s[j + 1..] && i < |t|
    requires forall n {:trigger NodeAt(mem, s, n)} :: 0 <= n < |s| ==> NodeAt(mem, s, n)
    ensures s[j] in mem && NodeAt(Unlinked(mem, s[j]), t, i)
  {
    assert NodeAt(mem, s, j);
    assert NodeAt(mem, s, if i < j then i else i + 1);
  }

  lemma UnlinkLinked(mem: Memory, head: nat, s: seq<nat>, b: nat)
    requires Linked(mem, head, s) && b in s
    ensures b in mem
    ensures Linked(Unlinked(mem, b), HeadAfter(mem, head, b), Remove(s, b))
    ensures LinksOnly(mem, Unlinked(mem, b), s)
  {
    var j :| 0 <= j < |s| && s[j] == b;
    RemoveAt(s, j);
    RemoveMembers(s, b);
    assert NodeAt(mem, s, j) && (j > 0 ==> NodeAt(mem, s, j - 1));
    forall i | 0 <= i < |Remove(s, b)| ensures NodeAt(Unlinked(mem, b), Remove(s, b), i) {
      UnlinkNode(mem, s, j, Remove(s, b), i);
    }
  }

  // ---------------------------------------------------------------- memory against heap

  /** The header of a live block says what the block is. A block in `held` is on its way from
      its free list to the caller; its state is in flux. */
  ghost predicate HeaderOk(mem: Memory, h: Heap, held: nat, a: nat)
    requires a in h.tiles
  {
    && a in mem && a != NULL && mem[a].level == h.tiles[a].level
    && (a != held ==> mem[a].state == (if h.tiles[a].isFree then FREE else ALLOCATED))
    && (!h.tiles[a].isFree ==> mem[a].next == NULL && mem[a].prev == NULL)
  }

  ghost predicate Headers(mem: Memory, h: Heap, held: nat) {
    forall a {:trigger HeaderOk(mem, h, held, a)} :: a in h.tiles ==> HeaderOk(mem, h, held, a)
  }

  /** Headers and free lists in memory are those of the heap. */
  ghost predicate Represents(mem: Memory, heads: seq<nat>, h: Heap, held: nat) {
    && |heads| == BLOCKS && Listed(h) && Headers(mem, h, held)
    && (held in h.tiles ==> !h.tiles[held].isFree)
    && (forall l :: 1 <= l < BLOCKS ==> Linked(mem, heads[l], h.lists[l]))
  }

  function AddFree(h: Heap, b: nat, l: nat): Heap
    requires l < |h.lists|
  {
    h.(tiles := h.tiles[b := Tile(l, true)], lists := h.lists[l := [b] + h.lists[l]])
  }

  function DropFree(h: Heap, b: nat): Heap
    requires b in h.tiles && h.tiles[b].level < |h.lists|
  {
    h.(tiles := h.tiles - {b}, lists := h.lists[h.tiles[b].level := Remove(h.lists[h.tiles[b].level], b)])
  }

  lemma AddFreeListed(h: Heap, b: nat, l: nat)
    requires Listed(h) && l < BLOCKS && (b in h.tiles ==> !h.tiles[b].isFree)
    ensures Listed(AddFree(h, b, l))
  {
    forall i | 0 <= i < BLOCKS ensures ListedAt(AddFree(h, b, l), i) {
      assert ListedAt(h, i);
    }
  }

  lemma DropFreeListed(h: Heap, b: nat)
    requires Listed(h) && b in h.tiles && h.tiles[b].isFree && h.tiles[b].level < BLOCKS
    ensures Listed(DropFree(h, b))
  {
    var l := h.tiles[b].level;
    assert ListedAt(h, l);
    RemoveMembers(h.lists[l], b);
    forall i | 0 <= i < BLOCKS ensures ListedAt(DropFree(h, b), i) {
      assert ListedAt(h, i);
    }
  }

  /** Changing links within list l leaves the other lists as they were. */
  lemma OtherLists(mem: Memory, heads: seq<nat>, h: Heap, held: nat, l: nat, mem': Memory, b: nat)
    requires Represents(mem, heads, h, held) && l < BLOCKS
    requires LinksOnly(mem, mem', [b] + h.lists[l]) && (b in h.tiles ==> h.tiles[b].isFree ==> h.tiles[b].level == l)
    ensures forall i :: 1 <= i < BLOCKS && i != l ==> Linked(mem', heads[i], h.lists[i])
  {
    assert ListedAt(h, l);
    forall i | 1 <= i < BLOCKS && i != l ensures Linked(mem', heads[i], h.lists[i]) {
      assert ListedAt(h, i);
      LinkedFrame(mem, mem', heads[i], h.lists[i]);
    }
  }

  lemma PopRep(mem: Memory, heads: seq<nat>, h: Heap, l: nat)
    requires Represents(mem, heads, h, NULL) && 1 <= l < BLOCKS && heads[l] != NULL
    ensures h.lists[l] != [] && heads[l] == h.lists[l][0]
    ensures heads[l] in h.tiles && h.tiles[heads[l]] == Tile(l, true)
    ensures heads[l] in mem && mem[heads[l]].state == FREE
    ensures mem[heads[l]].next == NULL || mem[heads[l]].next in mem
    ensures Represents(Popped(mem, heads[l]), heads[l := mem[heads[l]].next], TakeHead(h, l), heads[l])
  {
    var b := heads[l];
    PopLinked(mem, b, h.lists[l]);
    TakeHeadListing(h, l);
    assert HeaderOk(mem, h, NULL, b);
    assert NodeAt(mem, h.lists[l], 0) && (|h.lists[l]| > 1 ==> NodeAt(mem, h.lists[l], 1));
    var mem' := Popped(mem, b);
    OtherLists(mem, heads, h, NULL, l, mem', b);
    assert ListedAt(h, l);
    forall a | a in TakeHead(h, l).tiles ensures HeaderOk(mem', TakeHead(h, l), b, a) {
      assert HeaderOk(mem, h, NULL, a);
    }
  }

  lemma PushRep(mem: Memory, heads: seq<nat>, h: Heap, held: nat, b: nat, l: nat)
    requires Represents(mem, heads, h, held) && 1 <= l < BLOCKS
    requires b in mem && b != NULL && mem[b] == Header(l, FREE, NULL, NULL)
    requires b in h.tiles ==> !h.tiles[b].isFree
    ensures heads[l] != NULL ==> heads[l] in mem
    ensures Represents(Pushed(mem, heads[l], b), heads[l := b], AddFree(h, b, l), if b == held then NULL else held)
    ensures LinksOnly(mem, Pushed(mem, heads[l], b), [b] + h.lists[l])
  {
    assert ListedAt(h, l);
    PushLinked(mem, heads[l], h.lists[l], b);
    AddFreeListed(h, b, l);
    assert h.lists[l] != [] ==> NodeAt(mem, h.lists[l], 0);
    var mem' := Pushed(mem, heads[l], b);
    OtherLists(mem, heads, h, held, l, mem', b);
    var g := AddFree(h, b, l);
    var held' := if b == held then NULL else held;
    forall a | a in g.tiles ensures HeaderOk(mem', g, held', a) {
      if a != b {
        assert HeaderOk(mem, h, held, a);
      }
    }
  }

  lemma UnlinkRep(mem: Memory, heads: seq<nat>, h: Heap, b: nat)
    requires Represents(mem, heads, h, NULL)
    requires b in h.tiles && h.tiles[b].isFree && 1 <= h.tiles[b].level < BLOCKS
    ensures b in mem && b != NULL
    ensures mem[b].next == NULL || mem[b].next in mem
    ensures mem[b].prev == NULL || mem[b].prev in mem
    ensures var l := h.tiles[b].level;
            Represents(Unlinked(mem, b), heads[l := HeadAfter(mem, heads[l], b)], DropFree(h, b), NULL)
    ensures LinksOnly(mem, Unlinked(mem, b), h.lists[h.tiles[b].level])
  {
    var l := h.tiles[b].level;
    assert ListedAt(h, l);
    UnlinkLinked(mem, heads[l], h.lists[l], b);
    DropFreeListed(h, b);
    UnlinkNeighbours(mem, h.lists[l], b);
    var mem' := Unlinked(mem, b);
    OtherLists(mem, heads, h, NULL, l, mem', b);
    var g := DropFree(h, b);
    forall a | a in g.tiles ensures HeaderOk(mem', g, NULL, a) {
      assert HeaderOk(mem, h, NULL, a);
    }
  }

  lemma UnlinkNeighbours(mem: Memory, s: seq<nat>, b: nat)
    requires b in s
    requires forall n {:trigger NodeAt(mem, s, n)} :: 0 <= n < |s| ==> NodeAt(mem, s, n)
    ensures b in mem && b != NULL
    ensures mem[b].next == NULL || mem[b].next in mem
    ensures mem[b].prev == NULL || mem[b].prev in mem
  {
    var j :| 0 <= j < |s| && s[j] == b;
    assert NodeAt(mem, s, j);
    assert j > 0 ==> NodeAt(mem, s, j - 1);
    assert j + 1 < |s| ==> NodeAt(mem, s, j + 1);
  }

  // ---------------------------------------------------------------- bytes that are no header

  /** Bytes at a that are no live block's header but read as a FREE header of some level l
      could mislead getBuddy only if a is where a block of level l at a + 2^l looks, or if a
      lies beyond the root block. */
  ghost predicate Misleading(mem: Memory, h: Heap, k: nat, a: nat) {
    && a in mem && a !in h.tiles && mem[a].state == FREE && mem[a].level >= k && mem[a].level >= MIN_LEVEL
    && (a >= h.End() || (!Bit(a, mem[a].level) && a + Pow2(mem[a].level) < h.End()))
  }

  ghost predicate Quiet(mem: Memory, h: Heap, k: nat) {
    forall a :: !Misleading(mem, h, k, a)
  }

  /** With a base aligned to the whole root block, nothing a program writes into the root
      block can mislead the manager. */
  lemma AlignedBaseIsQuiet(mem: Memory, h: Heap, mem': Memory)
    requires Shape(h, h.root) && Quiet(mem, h, h.root) && mem'.Keys == mem.Keys
    requires forall a :: a in mem ==> h.base <= a
    requires forall a :: a in mem && (a in h.tiles || a >= h.End()) ==> mem'[a] == mem[a]
    ensures Quiet(mem', h, h.root)
  {
    forall a ensures !Misleading(mem', h, h.root, a) {
      if Misleading(mem', h, h.root, a) {
        assert !Misleading(mem, h, h.root, a);
        if h.root < mem'[a].level {
          Pow2Monotone(h.root, mem'[a].level);
        }
        assert false;
      }
    }
  }

  lemma QuietFrame(mem: Memory, h: Heap, mem': Memory, h': Heap, k: nat)
    requires Quiet(mem, h, k) && h'.base == h.base && h'.root == h.root
    requires forall a :: a in h.tiles ==> a in h'.tiles
    requires forall a :: a in mem' && a !in h'.tiles ==>
               a in mem && mem'[a].level == mem[a].level && mem'[a].state == mem[a].state
    ensures Quiet(mem', h', k)
  {
    forall a ensures !Misleading(mem', h', k, a) {
      assert !Misleading(mem, h, k, a);
    }
  }

  /** Reading the header at the partner's address gives the right answer. */
  lemma BuddyReadsRight(mem: Memory, h: Heap, k: nat, held: nat, b: nat)
    requires Shape(h, k) && Headers(mem, h, held) && Quiet(mem, h, k)
    requires b in h.tiles && h.tiles[b].isFree && (held in h.tiles ==> !h.tiles[held].isFree)
    requires forall a :: a in mem ==> h.base <= a
    ensures var l := h.tiles[b].level; var p := BuddyOf(b, l);
            CanMerge(h, b) <==> p in mem && p != held && mem[p].state == FREE && mem[p].level == l
  {
    var l := h.tiles[b].level;
    var p := BuddyOf(b, l);
    assert TileOk(h, b);
    if p in h.tiles {
      assert HeaderOk(mem, h, held, p);
    } else if p in mem && mem[p].state == FREE && mem[p].level == l {
      if l < k {
        BuddyIsLive(h, k, b);
      } else {
        XorPow2(b, l);
        XorInvolution(b, l);
        assert Misleading(mem, h, k, p);
        assert false;
      }
    }
  }

  class Manager {
    const managedMemory: nat
    const memorySize: nat
    const blocks: array<nat>
    var mem: Memory
    var usedMemory: nat
    var status: BuddyStatus
    ghost var heap: Heap
    ghost const k: nat

    /** Memory, list heads and the abstract heap agree. */
    ghost predicate Rep(held: nat)
      reads this, blocks
    {
      && blocks.Length == BLOCKS
      && (forall a :: a in mem <==> managedMemory <= a < managedMemory + memorySize)
      && heap.base == managedMemory && Shape(heap, k)
      && heap.End() <= managedMemory + memorySize
      && Represents(mem, blocks[..], heap, held) && Quiet(mem, heap, k)
    }

    ghost predicate Valid()
      reads this, blocks
    {
      && blocks.Length == BLOCKS
      && (status == BUDDY_OK ==>
            Rep(NULL) && Inv(heap, k) && usedMemory == Used(heap))
    }

    /** The kernel's heap set-up; `memory` is what the managed bytes happen to hold, and the
        entry of level 0 in the table is never initialised. */
    constructor (base: nat, size: nat, memory: Memory, stale: nat, ghost alignment: nat)
      requires base > 0 && Pow2(MIN_LEVEL) <= size < Pow2(MAX_LEVEL + 1)
      requires Aligned(base, alignment) && alignment <= Log2(size) < BLOCKS
      requires forall a :: a in memory <==> base <= a < base + size
      requires forall a :: a != base ==> !Misleading(memory, Initial(base, Log2(size)), alignment, a)
      ensures Valid() && fresh(blocks)
      ensures managedMemory == base && memorySize == size && k == alignment && usedMemory == 0
      ensures status == (if base % BUDDY_MIN_BLOCK_SIZE == 0 then BUDDY_OK else BUDDY_ERROR)
      ensures status == BUDDY_OK ==> heap == Initial(base, Log2(size))
    {
      managedMemory, memorySize, usedMemory, k := base, size, 0, alignment;
      mem := memory;
      blocks := new nat[BLOCKS](_ => stale);
      status := BUDDY_OK;
      heap := Initial(base, Log2(size));
      new;
      if base % BUDDY_MIN_BLOCK_SIZE != 0 {
        status := BUDDY_ERROR;
        return;
      }
      for i := 1 to BLOCKS
        invariant forall l :: 1 <= l < i ==> blocks[l] == NULL
        invariant mem == memory && usedMemory == 0 && status == BUDDY_OK && heap == Initial(base, Log2(size))
      {
        blocks[i] := NULL;
      }
      var maxLevel := RootLevel(size);
      mem := mem[base := Header(maxLevel, FREE, NULL, NULL)];
      blocks[maxLevel] := base;
      InitialRep(base, maxLevel, k, memory, mem);
    }

    /** Take the head of a non-empty free list off it. */
    method PopHead(l: nat) returns (b: nat)
      requires Rep(NULL) && 1 <= l < BLOCKS && blocks[l] != NULL
      modifies this`mem, this`heap, blocks
      ensures old(heap).lists[l] != [] && b == old(heap).lists[l][0] && b in old(heap).tiles
      ensures heap == TakeHead(old(heap), l) && heap.tiles[b] == Tile(l, false)
      ensures Rep(b)
    {
      ghost var m0, h0, heads := mem, heap, blocks[..];
      PopRep(mem, blocks[..], heap, l);
      TakeHeadKeeps(heap, k, l);
      b := blocks[l];
      blocks[l] := mem[b].next;
      if mem[b].next != NULL {
        mem := mem[mem[b].next := mem[mem[b].next].(prev := NULL)];
      }
      mem := mem[b := mem[b].(next := NULL, prev := NULL)];
      heap := TakeHead(heap, l);
      assert mem == Popped(m0, b);
      assert blocks[..] == heads[l := m0[b].next];
      QuietFrame(m0, h0, mem, heap, k);
    }

    /** Put a free block at the front of the list of its level. */
    method PushFront(b: nat, l: nat)
      requires blocks.Length == BLOCKS && 1 <= l < BLOCKS
      requires b in mem && b != NULL && (blocks[l] != NULL ==> blocks[l] in mem)
      modifies this`mem, blocks
      ensures mem == Pushed(old(mem), old(blocks[l]), b)
      ensures blocks[..] == old(blocks[..])[l := b]
    {
      mem := mem[b := mem[b].(next := blocks[l])];
      if blocks[l] != NULL {
        mem := mem[blocks[l] := mem[blocks[l]].(prev := b)];
      }
      blocks[l] := b;
    }

    /** Halve a taken block once: the right half goes to the free list of its level. */
    method HalveBlock(b: nat, newLevel: nat)
      requires Rep(b) && b in heap.tiles && heap.tiles[b] == Tile(newLevel + 1, false)
      requires MIN_LEVEL <= newLevel < BLOCKS - 1
      modifies this`mem, this`heap, blocks
      ensures Rep(b) && heap == SplitOnce(old(heap), b)
    {
      ghost var m0, heads := mem, blocks[..];
      SplitRep(mem, heads, heap, k, b, managedMemory + memorySize);
      mem := mem[b := mem[b].(state := SPLIT)];
      var childSize := Pow2(newLevel);
      var right := b + childSize;
      mem := mem[b := Header(newLevel, FREE, NULL, NULL)];
      mem := mem[right := Header(newLevel, FREE, NULL, NULL)];
      assert mem == Halved(m0, b, newLevel);
      PushFront(right, newLevel);
      heap := SplitOnce(heap, b);
    }

    /** Halve a taken block until its left end has the target level; every right half goes to
        the free list of its level. */
    method SplitBlockToLevel(b: nat, currentLevel: nat, targetLevel: nat) returns (result: nat)
      requires Rep(b) && b in heap.tiles && heap.tiles[b] == Tile(currentLevel, false)
      requires MIN_LEVEL <= targetLevel <= currentLevel < BLOCKS
      modifies this`mem, this`heap, blocks
      ensures Rep(b) && result == b
      ensures heap == SplitTo(old(heap), b, targetLevel)
      decreases currentLevel
    {
      if currentLevel == targetLevel {
        return b;
      }
      var newLevel := currentLevel - 1;
      HalveBlock(b, newLevel);
      if newLevel == targetLevel {
        return b;
      }
      result := SplitBlockToLevel(b, newLevel, targetLevel);
    }

    /** A block of the given level, taken from the lowest level that has one; NULL if none has. */
    method FindFreeBlock(level: nat) returns (b: nat)
      requires Rep(NULL) && MIN_LEVEL <= level < BLOCKS
      modifies this`mem, this`heap, blocks
      ensures heap == Alloc(old(heap), level).0
      ensures Alloc(old(heap), level).1 == (if b == NULL then None else Some(b))
      ensures Rep(b) && (b != NULL ==> b in heap.tiles && heap.tiles[b] == Tile(level, false))
    {
      if blocks[level] != NULL {
        b := PopHead(level);
        LowestIs(old(heap).lists, level, level);
        return;
      }
      EmptyHead(mem, blocks[level], heap.lists[level]);
      for i := level + 1 to BLOCKS
        invariant mem == old(mem) && heap == old(heap) && blocks[..] == old(blocks[..])
        invariant Rep(NULL)
        invariant forall j :: level <= j < i ==> heap.lists[j] == []
      {
        if blocks[i] != NULL {
          b := PopHead(i);
          LowestIs(old(heap).lists, level, i);
          SplitToKeeps(heap, k, b, level);
          b := SplitBlockToLevel(b, i, level);
          return;
        }
        EmptyHead(mem, blocks[i], heap.lists[i]);
      }
      b := NULL;
      LowestIs(heap.lists, level, BLOCKS);
    }

    /** The header added, at least the least block, and a power of two. */
    method RequestSize(bytes: nat) returns (size: nat)
      ensures size == BlockSize(bytes)
    {
      size := bytes + HEADER_SIZE;
      if size < BUDDY_MIN_BLOCK_SIZE {
        size := BUDDY_MIN_BLOCK_SIZE;
      }
      if And(size, size - 1) != 0 {
        var log := Log2Loop(size);
        size := Pow2(log + 1);
      }
    }

    /** The level of a request, as the kernel computes it. */
    method RequestLevel(bytes: nat) returns (level: nat)
      ensures level == LevelFor(bytes)
    {
      var size := RequestSize(bytes);
      level := Log2Loop(size);
      if Pow2(level) < size {
        level := level + 1;
      }
    }

    /** Find a block, mark it allocated and account for it. */
    method TakeBlock(level: nat) returns (block: nat)
      requires Valid() && status == BUDDY_OK && MIN_LEVEL <= level < BLOCKS
      modifies this`mem, this`heap, this`usedMemory, blocks
      ensures Valid()
      ensures heap == Alloc(old(heap), level).0
      ensures Alloc(old(heap), level).1 == (if block == NULL then None else Some(block))
      ensures usedMemory == old(usedMemory) + (if block == NULL then 0 else Pow2(level))
      ensures block != NULL ==> block in heap.tiles && heap.tiles[block] == Tile(level, false)
    {
      AllocKeeps(heap, k, level);
      AllocUsed(heap, k, level);
      block := FindFreeBlock(level);
      if block != NULL {
        ghost var m0 := mem;
        assert HeaderOk(mem, heap, block, block);
        mem := mem[block := mem[block].(state := ALLOCATED)];
        MarkRep(m0, blocks[..], heap, block, mem);
        QuietFrame(m0, heap, mem, heap, k);
        usedMemory := usedMemory + Pow2(level);
      }
    }

    /** Memory for `bytes` bytes; NULL when no free list can supply it. A request beyond the
        largest level disables the manager for good. */
    method AllocMemory(bytes: nat) returns (address: nat)
      requires Valid() && bytes + HEADER_SIZE <= 0x8000_0000_0000_0000
      modifies this`mem, this`heap, this`usedMemory, this`status, blocks
      ensures Valid()
      ensures old(status) == BUDDY_ERROR || LevelFor(bytes) >= BLOCKS ==>
                address == NULL && status == BUDDY_ERROR && usedMemory == old(usedMemory)
      ensures old(status) == BUDDY_OK && LevelFor(bytes) < BLOCKS ==>
                && status == BUDDY_OK && Listed(old(heap))
                && heap == Alloc(old(heap), LevelFor(bytes)).0
                && Alloc(old(heap), LevelFor(bytes)).1 == (if address == NULL then None else Some(address - HEADER_SIZE))
      ensures address == NULL ==> usedMemory == old(usedMemory)
      ensures address != NULL ==>
                var b := address - HEADER_SIZE;
                && b in heap.tiles && heap.tiles[b] == Tile(LevelFor(bytes), false)
                && usedMemory == old(usedMemory) + Pow2(LevelFor(bytes))
    {
      if status != BUDDY_OK {
        return NULL;
      }
      var level := RequestLevel(bytes);
      LevelFits(bytes);
      if level >= BLOCKS {
        status := BUDDY_ERROR;
        return NULL;
      }
      var block := TakeBlock(level);
      if block == NULL {
        return NULL;
      }
      address := block + HEADER_SIZE;
    }

    /** The partner's address, or NULL when it lies outside the managed memory. */
    function GetBuddy(b: nat): nat
      requires b in mem
      reads this
    {
      var buddy := Xor(b, Pow2(mem[b].level));
      if buddy < managedMemory || buddy >= managedMemory + memorySize then NULL else buddy
    }

    /** Take a block off its free list, wherever in the list it is. */
    method Unlink(b: nat)
      requires blocks.Length == BLOCKS && b in mem && mem[b].level < BLOCKS
      requires (mem[b].next == NULL || mem[b].next in mem) && (mem[b].prev == NULL || mem[b].prev in mem)
      requires mem[b].prev != b
      modifies this`mem, blocks
      ensures mem == Unlinked(old(mem), b)
      ensures blocks[..] == HeadsAfter(old(mem), old(blocks[..]), b)
    {
      if mem[b].prev != NULL {
        mem := mem[mem[b].prev := mem[mem[b].prev].(next := mem[b].next)];
      } else {
        blocks[mem[b].level] := mem[b].next;
      }
      if mem[b].next != NULL {
        mem := mem[mem[b].next := mem[mem[b].next].(prev := mem[b].prev)];
      }
    }

    /** Both partners leave their list, the lower one becomes the parent and goes on the list
        a level up. */
    method JoinHeaders(block: nat, buddy: nat) returns (parent: nat)
      requires blocks.Length == BLOCKS && Neighbours(mem, buddy) && Neighbours(Unlinked(mem, buddy), block)
      requires block in mem && mem[buddy].level == mem[block].level && mem[block].level + 1 < BLOCKS
      requires Unlinked(mem, buddy)[block].level == mem[block].level
      requires Unlinked(Unlinked(mem, buddy), block).Keys == mem.Keys && Min(block, buddy) != NULL
      requires var head := HeadsAfter(Unlinked(mem, buddy), HeadsAfter(mem, blocks[..], buddy), block)[mem[block].level + 1];
               head != NULL ==> head in mem
      modifies this`mem, blocks
      ensures parent == Min(block, buddy)
      ensures var m2 := Unlinked(Unlinked(old(mem), buddy), block);
              var heads2 := HeadsAfter(Unlinked(old(mem), buddy), HeadsAfter(old(mem), old(blocks[..]), buddy), block);
              var l := old(mem[block].level) + 1;
              && mem == Pushed(m2[parent := Header(l, FREE, NULL, NULL)], heads2[l], parent)
              && blocks[..] == heads2[l := parent]
    {
      var level := mem[block].level;
      Unlink(buddy);
      Unlink(block);
      parent := if block < buddy then block else buddy;
      mem := mem[parent := Header(level + 1, FREE, NULL, NULL)];
      PushFront(parent, level + 1);
    }

    /** Join a free block with its free partner into a free block a level up. */
    method JoinOnce(block: nat, buddy: nat) returns (parent: nat)
      requires Rep(NULL) && block in heap.tiles && heap.tiles[block].isFree && CanMerge(heap, block)
      requires buddy == BuddyOf(block, heap.tiles[block].level)
      modifies this`mem, this`heap, blocks
      ensures parent == ParentOf(old(heap), block)
      ensures old(heap.tiles[block].level) + 1 < BLOCKS && heap == MergeOnce(old(heap), block)
      ensures Rep(NULL)
    {
      ghost var m0, heads, h0, l := mem, blocks[..], heap, heap.tiles[block].level;
      JoinFacts(heap, k, block, buddy);
      UnlinkBoth(mem, heads, heap, block, buddy, l);
      ghost var m2 := Unlinked(Unlinked(m0, buddy), block);
      ghost var heads2 := HeadsAfter(Unlinked(m0, buddy), HeadsAfter(m0, heads, buddy), block);
      JoinRep(m0, heads, heap, block, buddy, l, m2, heads2);
      parent := JoinHeaders(block, buddy);
      JoinQuiet(m0, heads, h0, k, block, l, m2, mem, [parent] + h0.lists[l + 1]);
      heap := MergeOnce(heap, block);
    }

    /** Join a free block with its partner, and the result with its own, for as long as the
        partner is free. */
    method MergeBlocks(block: nat)
      requires Rep(NULL) && block in heap.tiles && heap.tiles[block].isFree
      modifies this`mem, this`heap, blocks
      ensures Rep(NULL) && heap == Coalesce(old(heap), k, block)
      decreases heap.root - heap.tiles[block].level
    {
      BuddyReadsRight(mem, heap, k, NULL, block);
      assert HeaderOk(mem, heap, NULL, block) && TileOk(heap, block);
      var buddy := GetBuddy(block);
      if buddy != NULL && mem[buddy].state == FREE && mem[buddy].level == mem[block].level {
        MergeKeepsShape(heap, k, block);
        var parent := JoinOnce(block, buddy);
        MergeBlocks(parent);
      }
    }

    /** Give back an address obtained from AllocMemory. An address whose header does not read
        ALLOCATED (NULL, or a block that is already free) is ignored. */
    method FreeMemory(address: nat)
      requires Valid()
      requires address != NULL ==> address >= HEADER_SIZE && address - HEADER_SIZE in mem
      requires status == BUDDY_OK && address != NULL && mem[address - HEADER_SIZE].state == ALLOCATED ==>
                 address - HEADER_SIZE in heap.tiles
      modifies this`mem, this`heap, this`usedMemory, blocks
      ensures Valid()
      ensures var b := address - HEADER_SIZE;
              if old(status) == BUDDY_OK && address != NULL && old(mem[b].state) == ALLOCATED
              then
                && Inv(old(heap), k) && b in old(heap).tiles && !old(heap).tiles[b].isFree
                && heap == Free(old(heap), k, b)
                && usedMemory == old(usedMemory) - Pow2(old(heap).tiles[b].level)
              else heap == old(heap) && mem == old(mem) && usedMemory == old(usedMemory)
    {
      if address == NULL || status != BUDDY_OK {
        return;
      }
      var block := address - HEADER_SIZE;
      if mem[block].state != ALLOCATED {
        return;
      }
      ghost var m0, heads, h0 := mem, blocks[..], heap;
      assert HeaderOk(mem, heap, NULL, block) && TileOk(heap, block);
      FreeKeeps(h0, k, block);
      FreeUsed(h0, k, block);
      ReleaseKeepsShape(h0, k, block);
      ReleaseRep(mem, heads, heap, k, block);
      mem := mem[block := mem[block].(state := FREE)];
      var level := mem[block].level;
      PushFront(block, level);
      heap := Release(heap, block);
      usedMemory := usedMemory - Pow2(level);
      MergeBlocks(block);
    }

    /** Programs write what they like into the bytes they hold: every header that is not a
        live block's may change, as long as it does not come to look like a free block where
        getBuddy could mistake it for one. */
    method UserWrites(memory: Memory)
      requires Valid() && status == BUDDY_OK
      requires memory.Keys == mem.Keys && (forall a :: a in heap.tiles ==> a in mem && memory[a] == mem[a])
      requires Quiet(memory, heap, k)
      modifies this`mem
      ensures Valid() && mem == memory
    {
      ghost var m0 := mem;
      mem := memory;
      forall a | a in heap.tiles ensures HeaderOk(mem, heap, NULL, a) {
        assert HeaderOk(m0, heap, NULL, a);
      }
      forall i | 1 <= i < BLOCKS ensures Linked(mem, blocks[i], heap.lists[i]) {
        assert ListedAt(heap, i);
        LinkedFrame(m0, mem, blocks[i], heap.lists[i]);
      }
    }

    /** The three figures reported to programs. The free figure counts the bytes beyond the root
        block, which no request can ever obtain. */
    method GetMemoryInfo() returns (total: nat, used: nat, free: nat)
      requires Valid() && status == BUDDY_OK
      ensures total == memorySize && used == Used(heap) && total == used + free
      ensures free == FreeFrom(heap, heap.base) + (memorySize - Pow2(heap.root))
    {
      NothingLost(heap, heap.base);
      total := memorySize;
      used := usedMemory;
      free := total - used;
    }
  }

  lemma LowestIs(lists: seq<seq<nat>>, level: nat, i: nat)
    requires |lists| == BLOCKS && level <= i <= BLOCKS
    requires forall j :: level <= j < i ==> lists[j] == []
    requires i < BLOCKS ==> lists[i] != []
    ensures Lowest(lists, level) == i
  {
  }

  lemma ShrinkRep(mem: Memory, heads: seq<nat>, h: Heap, b: nat, l: nat, mem': Memory, right: nat)
    requires Represents(mem, heads, h, b) && b in h.tiles && right !in h.tiles && b != right
    requires mem' == mem[b := Header(l, FREE, NULL, NULL)][right := Header(l, FREE, NULL, NULL)]
    ensures Represents(mem', heads, h.(tiles := h.tiles[b := Tile(l, false)]), b)
  {
    var g := h.(tiles := h.tiles[b := Tile(l, false)]);
    forall i | 0 <= i < BLOCKS ensures ListedAt(g, i) {
      assert ListedAt(h, i);
    }
    forall a | a in g.tiles ensures HeaderOk(mem', g, b, a) {
      assert HeaderOk(mem, h, b, a);
    }
    forall i | 1 <= i < BLOCKS ensures Linked(mem', heads[i], h.lists[i]) {
      assert ListedAt(h, i);
      LinkedFrame(mem, mem', heads[i], h.lists[i]);
    }
  }

  function Halved(mem: Memory, b: nat, l: nat): Memory {
    mem[b := Header(l, FREE, NULL, NULL)][b + Pow2(l) := Header(l, FREE, NULL, NULL)]
  }

  lemma SplitRep(mem: Memory, heads: seq<nat>, h: Heap, k: nat, b: nat, end: nat)
    requires Represents(mem, heads, h, b) && Shape(h, k) && Quiet(mem, h, k)
    requires b in h.tiles && !h.tiles[b].isFree && MIN_LEVEL < h.tiles[b].level < BLOCKS
    requires h.End() <= end && (forall a :: h.base <= a < end ==> a in mem)
    ensures var l := h.tiles[b].level - 1;
            var m := Halved(mem, b, l);
            var right := b + Pow2(l);
            && b in mem && right in mem && right != NULL && (heads[l] != NULL ==> heads[l] in m)
            && Represents(Pushed(m, heads[l], right), heads[l := right], SplitOnce(h, b), b)
            && Quiet(Pushed(m, heads[l], right), SplitOnce(h, b), k)
            && Pushed(m, heads[l], right).Keys == mem.Keys
            && Shape(SplitOnce(h, b), k)
  {
    var l := h.tiles[b].level - 1;
    var m := Halved(mem, b, l);
    var right := b + Pow2(l);
    SplitKeeps(h, k, b);
    SplitTiling(h, b);
    assert TileOk(h, b) && TileOk(SplitOnce(h, b), right) && HeaderOk(mem, h, b, b);
    var g := h.(tiles := h.tiles[b := Tile(l, false)]);
    ShrinkRep(mem, heads, h, b, l, m, right);
    PushRep(m, heads, g, b, right, l);
    assert SplitOnce(h, b) == AddFree(g, right, l);
    QuietFrame(mem, h, Pushed(m, heads[l], right), SplitOnce(h, b), k);
  }

  lemma EmptyHead(mem: Memory, head: nat, s: seq<nat>)
    requires Linked(mem, head, s)
    ensures head == NULL <==> s == []
  {
    if s != [] {
      assert NodeAt(mem, s, 0);
    }
  }

  function HeadsAfter(mem: Memory, heads: seq<nat>, b: nat): seq<nat>
    requires b in mem && mem[b].level < |heads|
  {
    heads[mem[b].level := HeadAfter(mem, heads[mem[b].level], b)]
  }

  lemma UnlinkBoth(mem: Memory, heads: seq<nat>, h: Heap, b: nat, p: nat, l: nat)
    requires Represents(mem, heads, h, NULL) && 1 <= l < BLOCKS && b != p
    requires b in h.tiles && h.tiles[b] == Tile(l, true) && p in h.tiles && h.tiles[p] == Tile(l, true)
    ensures Neighbours(mem, p) && mem[p].level == l && b in mem && mem[b].level == l && p != NULL
    ensures Neighbours(Unlinked(mem, p), b) && Unlinked(mem, p)[b].level == l
    ensures Represents(Unlinked(Unlinked(mem, p), b), HeadsAfter(Unlinked(mem, p), HeadsAfter(mem, heads, p), b),
                       DropFree(DropFree(h, p), b), NULL)
    ensures LinksOnly(mem, Unlinked(Unlinked(mem, p), b), h.lists[l])
  {
    assert HeaderOk(mem, h, NULL, p) && HeaderOk(mem, h, NULL, b);
    UnlinkRep(mem, heads, h, p);
    UnlinkNotSelf(mem, heads, h, p);
    var h1 := DropFree(h, p);
    assert ListedAt(h, l);
    RemoveMembers(h.lists[l], p);
    UnlinkRep(Unlinked(mem, p), HeadsAfter(mem, heads, p), h1, b);
    UnlinkNotSelf(Unlinked(mem, p), HeadsAfter(mem, heads, p), h1, b);
  }

  lemma MergeInSteps(h: Heap, b: nat, p: nat, l: nat)
    requires Listed(h) && l + 1 < BLOCKS && b != p && p == BuddyOf(b, l)
    requires b in h.tiles && h.tiles[b] == Tile(l, true) && CanMerge(h, b)
    ensures Listed(DropFree(h, p)) && Listed(DropFree(DropFree(h, p), b))
    ensures MergeOnce(h, b) == AddFree(DropFree(DropFree(h, p), b), Min(b, p), l + 1)
  {
    DropFreeListed(h, p);
    DropFreeListed(DropFree(h, p), b);
    assert h.tiles - {b, p} == h.tiles - {p} - {b};
  }

  lemma JoinFacts(h: Heap, k: nat, b: nat, p: nat)
    requires Shape(h, k) && b in h.tiles && h.tiles[b].isFree && CanMerge(h, b) && p == BuddyOf(b, h.tiles[b].level)
    ensures var l := h.tiles[b].level;
            && 1 <= l && l + 1 < BLOCKS && h.tiles[b] == Tile(l, true) && b != p
            && p in h.tiles && h.tiles[p] == Tile(l, true) && ParentOf(h, b) == Min(b, p)
            && Shape(MergeOnce(h, b), k) && MergeOnce(h, b).base == h.base && MergeOnce(h, b).End() == h.End()
  {
    MergeKeepsShape(h, k, b);
    XorPow2(b, h.tiles[b].level);
    assert TileOk(h, b);
  }

  /** Writing the parent's header over unlinked memory and pushing it completes the merge. */
  lemma JoinRep(mem: Memory, heads: seq<nat>, h: Heap, b: nat, p: nat, l: nat, mem2: Memory, heads2: seq<nat>)
    requires Represents(mem, heads, h, NULL) && 1 <= l && l + 1 < BLOCKS
    requires b in h.tiles && h.tiles[b] == Tile(l, true) && CanMerge(h, b) && p == BuddyOf(b, l) && b != p
    requires mem2.Keys == mem.Keys
    requires Represents(mem2, heads2, DropFree(DropFree(h, p), b), NULL)
    ensures var m := mem2[Min(b, p) := Header(l + 1, FREE, NULL, NULL)];
            && m.Keys == mem.Keys && (heads2[l + 1] != NULL ==> heads2[l + 1] in m) && Min(b, p) != NULL
            && Represents(Pushed(m, heads2[l + 1], Min(b, p)), heads2[l + 1 := Min(b, p)], MergeOnce(h, b), NULL)
            && LinksOnly(m, Pushed(m, heads2[l + 1], Min(b, p)), [Min(b, p)] + h.lists[l + 1])
  {
    MergeInSteps(h, b, p, l);
    var h2 := DropFree(DropFree(h, p), b);
    var parent := Min(b, p);
    var m := mem2[parent := Header(l + 1, FREE, NULL, NULL)];
    assert HeaderOk(mem, h, NULL, p) && HeaderOk(mem, h, NULL, b);
    assert parent !in h2.tiles;
    DeadWriteRep(mem2, heads2, h2, parent, Header(l + 1, FREE, NULL, NULL), m);
    PushRep(m, heads2, h2, NULL, parent, l + 1);
  }

  lemma JoinQuiet(mem: Memory, heads: seq<nat>, h: Heap, k: nat, b: nat, l: nat, mem2: Memory, mem3: Memory, s: seq<nat>)
    requires Represents(mem, heads, h, NULL) && Shape(h, k) && Quiet(mem, h, k)
    requires b in h.tiles && h.tiles[b] == Tile(l, true) && CanMerge(h, b) && l + 1 < BLOCKS
    requires LinksOnly(mem, mem2, h.lists[l])
    requires LinksOnly(mem2[ParentOf(h, b) := Header(l + 1, FREE, NULL, NULL)], mem3, s)
    ensures Quiet(mem3, MergeOnce(h, b), k)
  {
    forall a | a in h.tiles ensures a in mem && mem[a].level == h.tiles[a].level {
      assert HeaderOk(mem, h, NULL, a);
    }
    MergeQuiet(mem, h, k, b, mem3);
  }

  ghost predicate Neighbours(mem: Memory, b: nat) {
    && b in mem && mem[b].prev != b
    && (mem[b].next == NULL || mem[b].next in mem) && (mem[b].prev == NULL || mem[b].prev in mem)
  }

  lemma UnlinkNotSelf(mem: Memory, heads: seq<nat>, h: Heap, b: nat)
    requires Represents(mem, heads, h, NULL)
    requires b in h.tiles && h.tiles[b].isFree && 1 <= h.tiles[b].level < BLOCKS
    ensures Neighbours(mem, b)
  {
    var s := h.lists[h.tiles[b].level];
    assert ListedAt(h, h.tiles[b].level);
    UnlinkNeighbours(mem, s, b);
    var j :| 0 <= j < |s| && s[j] == b;
    assert NodeAt(mem, s, j);
  }

  lemma DeadWriteRep(mem: Memory, heads: seq<nat>, h: Heap, a: nat, header: Header, mem': Memory)
    requires Represents(mem, heads, h, NULL) && a !in h.tiles && mem' == mem[a := header]
    ensures Represents(mem', heads, h, NULL)
  {
    forall c | c in h.tiles ensures HeaderOk(mem', h, NULL, c) {
      assert HeaderOk(mem, h, NULL, c);
    }
    forall i | 1 <= i < BLOCKS ensures Linked(mem', heads[i], h.lists[i]) {
      assert ListedAt(h, i);
      LinkedFrame(mem, mem', heads[i], h.lists[i]);
    }
  }

  /** The header a merge leaves behind in the upper half is harmless: its partner lies below. */
  lemma MergeQuiet(mem: Memory, h: Heap, k: nat, b: nat, mem': Memory)
    requires Shape(h, k) && Quiet(mem, h, k) && b in h.tiles && h.tiles[b].isFree && CanMerge(h, b)
    requires h.tiles[b].level + 1 < |h.lists|
    requires forall a :: a in mem' && a != ParentOf(h, b) ==>
               a in mem && mem'[a].level == mem[a].level && mem'[a].state == mem[a].state
    requires forall a :: a in h.tiles ==> a in mem && mem[a].level == h.tiles[a].level
    ensures Quiet(mem', MergeOnce(h, b), k)
  {
    var lo, hi := MergeAddresses(h, b);
    assert TileOk(h, hi);
    XorInvolution(b, h.tiles[b].level);
    XorPow2(b, h.tiles[b].level);
    forall a ensures !Misleading(mem', MergeOnce(h, b), k, a) {
      assert !Misleading(mem, h, k, a);
    }
  }

  lemma ReleaseRep(mem: Memory, heads: seq<nat>, h: Heap, k: nat, b: nat)
    requires Represents(mem, heads, h, NULL) && Shape(h, k) && Quiet(mem, h, k)
    requires b in h.tiles && !h.tiles[b].isFree
    ensures var l := h.tiles[b].level;
            && 1 <= l < BLOCKS && b in mem && b != NULL && mem[b].level == l
            && var m := mem[b := mem[b].(state := FREE)];
            && (heads[l] != NULL ==> heads[l] in m)
            && Represents(Pushed(m, heads[l], b), heads[l := b], Release(h, b), NULL)
            && Quiet(Pushed(m, heads[l], b), Release(h, b), k)
            && Pushed(m, heads[l], b).Keys == mem.Keys
  {
    var l := h.tiles[b].level;
    assert TileOk(h, b) && HeaderOk(mem, h, NULL, b);
    var m := mem[b := mem[b].(state := FREE)];
    assert Represents(m, heads, h, b) by {
      forall a | a in h.tiles ensures HeaderOk(m, h, b, a) {
        assert HeaderOk(mem, h, NULL, a);
      }
      forall i | 1 <= i < BLOCKS ensures Linked(m, heads[i], h.lists[i]) {
        assert ListedAt(h, i);
        LinkedFrame(mem, m, heads[i], h.lists[i]);
      }
    }
    PushRep(m, heads, h, b, b, l);
    assert Release(h, b) == AddFree(h, b, l);
    QuietFrame(mem, h, Pushed(m, heads[l], b), Release(h, b), k);
  }

  lemma MarkRep(mem: Memory, heads: seq<nat>, h: Heap, b: nat, mem': Memory)
    requires Represents(mem, heads, h, b) && b in h.tiles && b in mem
    requires mem' == mem[b := mem[b].(state := ALLOCATED)]
    ensures Represents(mem', heads, h, NULL)
  {
    forall a | a in h.tiles ensures HeaderOk(mem', h, NULL, a) {
      assert HeaderOk(mem, h, b, a);
    }
    forall i | 1 <= i < BLOCKS ensures Linked(mem', heads[i], h.lists[i]) {
      assert ListedAt(h, i);
      LinkedFrame(mem, mem', heads[i], h.lists[i]);
    }
  }

  lemma InitialRep(base: nat, root: nat, k: nat, memory: Memory, mem: Memory)
    requires MIN_LEVEL <= root < BLOCKS && k <= root && base > 0 && Aligned(base, k)
    requires base in memory && mem == memory[base := Header(root, FREE, NULL, NULL)]
    requires forall a :: a != base ==> !Misleading(memory, Initial(base, root), k, a)
    ensures Inv(Initial(base, root), k) && Used(Initial(base, root)) == 0
    ensures Headers(mem, Initial(base, root), NULL) && Quiet(mem, Initial(base, root), k)
    ensures Linked(mem, base, [base])
    ensures forall heads: seq<nat> :: |heads| == BLOCKS && heads[root] == base && (forall l :: 1 <= l < BLOCKS && l != root ==> heads[l] == NULL)
              ==> Represents(mem, heads, Initial(base, root), NULL)
  {
    var h := Initial(base, root);
    InitialInv(base, root, k);
    assert NodeAt(mem, [base], 0);
    forall a ensures !Misleading(mem, h, k, a) {
      assert a != base ==> !Misleading(memory, h, k, a);
    }
    assert UsedFrom(h, h.End()) == 0;
  }

  lemma LevelInRange(log: nat, size: nat)
    requires Pow2(log) <= size < 2 * Pow2(log) && Pow2(MIN_LEVEL) <= size < Pow2(MAX_LEVEL + 1)
    ensures MIN_LEVEL <= log <= MAX_LEVEL
  {
    if log < MIN_LEVEL {
      Pow2Monotone(log, MIN_LEVEL);
      assert false;
    }
    if log > MAX_LEVEL {
      if log > MAX_LEVEL + 1 {
        Pow2Monotone(MAX_LEVEL + 1, log);
      }
      assert false;
    }
  }
}
