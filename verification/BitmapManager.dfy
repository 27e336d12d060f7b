/** The bitmap memory manager: next-fit over an array of block marks. */
module BitmapManager {
  const BLOCK_SIZE: nat := 64
  const NULL: nat := 0
  const WIDTH: nat := 0x1_0000_0000

  datatype Mark = FREE | USED | START_BOUNDARY | END_BOUNDARY | SINGLE_BLOCK

  function SizeToBlockQty(size: nat): nat {
    if size % BLOCK_SIZE != 0 then size / BLOCK_SIZE + 1 else size / BLOCK_SIZE
  }

  /** The quantity is the least whose blocks hold the bytes. */
  lemma QtyFits(size: nat)
    ensures size <= BLOCK_SIZE * SizeToBlockQty(size) < size + BLOCK_SIZE
  {
  }

  // ---------------------------------------------------------------- the marks

  /** What mark i says about its neighbours. */
  ghost predicate MarkOk(s: seq<Mark>, i: nat)
    requires i < |s|
  {
    && (s[i] in {START_BOUNDARY, USED} <==> i + 1 < |s| && s[i + 1] in {USED, END_BOUNDARY})
    && (i == 0 ==> s[i] !in {USED, END_BOUNDARY})
  }

  /** The marks are well formed, said locally. */
  ghost predicate WellMarked(s: seq<Mark>) {
    forall i {:trigger MarkOk(s, i)} :: 0 <= i < |s| ==> MarkOk(s, i)
  }

  /** Leading USED marks. */
  function UsedPrefix(s: seq<Mark>): (n: nat)
    ensures n <= |s| && (forall i :: 0 <= i < n ==> s[i] == USED) && (n < |s| ==> s[n] != USED)
  {
    if s == [] || s[0] != USED then 0
    else
      assert forall i :: 0 < i < |s| ==> s[i] == s[1..][i - 1];
      1 + UsedPrefix(s[1..])
  }

  /** The marks are well formed, said as a grammar: a concatenation of FREE, SINGLE_BLOCK and
      START USED* END runs. */
  ghost predicate Grammar(s: seq<Mark>)
    decreases |s|
  {
    s == []
    || (s[0] in {FREE, SINGLE_BLOCK} && Grammar(s[1..]))
    || (s[0] == START_BOUNDARY &&
        var u := UsedPrefix(s[1..]);
        u + 1 < |s| && s[u + 1] == END_BOUNDARY && Grammar(s[u + 2..]))
  }

  lemma Suffix(s: seq<Mark>, m: nat)
    requires WellMarked(s) && m <= |s| && (m < |s| ==> s[m] !in {USED, END_BOUNDARY})
    ensures WellMarked(s[m..])
  {
    forall i | 0 <= i < |s[m..]| ensures MarkOk(s[m..], i) {
      assert MarkOk(s, m + i);
    }
  }

  /** A START mark is followed by USED marks and an END mark. */
  lemma StartRun(s: seq<Mark>)
    requires WellMarked(s) && s != [] && s[0] == START_BOUNDARY
    ensures var u := UsedPrefix(s[1..]);
            && u + 1 < |s| && s[u + 1] == END_BOUNDARY
            && (u + 2 < |s| ==> s[u + 2] !in {USED, END_BOUNDARY})
  {
    var u := UsedPrefix(s[1..]);
    assert u > 0 ==> s[u] == s[1..][u - 1];
    assert s[u] in {START_BOUNDARY, USED};
    assert MarkOk(s, u);
    assert s[u + 1] == s[1..][u];
    assert MarkOk(s, u + 1);
  }

  lemma {:induction false} WellMarkedIsGrammar(s: seq<Mark>)
    requires WellMarked(s)
    ensures Grammar(s)
    decreases |s|
  {
    if s != [] {
      assert MarkOk(s, 0);
      if s[0] == START_BOUNDARY {
        StartRun(s);
        Suffix(s, UsedPrefix(s[1..]) + 2);
        WellMarkedIsGrammar(s[UsedPrefix(s[1..]) + 2..]);
      } else {
        Suffix(s, 1);
        WellMarkedIsGrammar(s[1..]);
      }
    }
  }

  lemma {:induction false} GrammarIsWellMarked(s: seq<Mark>)
    requires Grammar(s)
    ensures WellMarked(s)
    ensures s != [] ==> s[0] !in {USED, END_BOUNDARY}
    decreases |s|
  {
    if s != [] {
      var u := if s[0] == START_BOUNDARY then UsedPrefix(s[1..]) + 2 else 1;
      GrammarIsWellMarked(s[u..]);
      forall i | 0 <= i < |s| ensures MarkOk(s, i) {
        if i >= u {
          assert MarkOk(s[u..], i - u);
        } else if i + 1 < u {
          assert s[i + 1] == s[1..][i];
          assert i > 0 ==> s[i] == s[1..][i - 1];
        }
      }
    }
  }

  // ---------------------------------------------------------------- groups

  ghost predicate FreeRun(s: seq<Mark>, i: nat, n: nat) {
    i + n <= |s| && forall j :: i <= j < i + n ==> s[j] == FREE
  }

  /** The n blocks from i on are one allocated group. */
  ghost predicate Group(s: seq<Mark>, i: nat, n: nat) {
    && 0 < n && i + n <= |s|
    && (n == 1 ==> s[i] == SINGLE_BLOCK)
    && (n > 1 ==> s[i] == START_BOUNDARY && s[i + n - 1] == END_BOUNDARY && forall j :: i < j < i + n - 1 ==> s[j] == USED)
  }

  function Taken(s: seq<Mark>, i: nat, n: nat): (r: seq<Mark>)
    requires 0 < n && i + n <= |s|
    ensures |r| == |s|
  {
    seq(|s|, j requires 0 <= j < |s| =>
      if j < i || i + n <= j then s[j]
      else if n == 1 then SINGLE_BLOCK
      else if j == i then START_BOUNDARY
      else if j == i + n - 1 then END_BOUNDARY
      else USED)
  }

  function Released(s: seq<Mark>, i: nat, n: nat): (r: seq<Mark>)
    ensures |r| == |s|
  {
    seq(|s|, j requires 0 <= j < |s| => if i <= j < i + n then FREE else s[j])
  }

  lemma TakenKeeps(s: seq<Mark>, i: nat, n: nat)
    requires WellMarked(s) && 0 < n && FreeRun(s, i, n)
    ensures WellMarked(Taken(s, i, n)) && Group(Taken(s, i, n), i, n)
  {
    var r := Taken(s, i, n);
    forall j | 0 <= j < |r| ensures MarkOk(r, j) {
      assert MarkOk(s, j);
      assert j + 1 < |s| ==> MarkOk(s, j + 1);
    }
  }

  lemma ReleasedKeeps(s: seq<Mark>, i: nat, n: nat)
    requires WellMarked(s) && Group(s, i, n)
    ensures WellMarked(Released(s, i, n))
  {
    var r := Released(s, i, n);
    forall j | 0 <= j < |r| ensures MarkOk(r, j) {
      assert MarkOk(s, j);
      assert MarkOk(s, i) && MarkOk(s, i + n - 1);
      assert j + 1 < |s| ==> MarkOk(s, j + 1);
    }
  }

  /** Freeing a group undoes its allocation exactly. */
  lemma ReleaseUndoesTake(s: seq<Mark>, i: nat, n: nat)
    requires 0 < n && FreeRun(s, i, n)
    ensures Released(Taken(s, i, n), i, n) == s
  {
  }

  /** Two groups are the same or do not touch. */
  lemma GroupsDisjoint(s: seq<Mark>, i: nat, n: nat, j: nat, m: nat)
    requires Group(s, i, n) && Group(s, j, m) && i <= j
    ensures (i == j && n == m) || i + n <= j
  {
  }

  lemma SameGroup(s: seq<Mark>, r: seq<Mark>, j: nat, m: nat)
    requires |s| == |r| && forall l :: j <= l < j + m && l < |s| ==> s[l] == r[l]
    ensures Group(s, j, m) <==> Group(r, j, m)
  {
  }

  predicate Within(l: int, j: int, m: int) { j <= l < j + m }

  lemma NoOverlap(s: seq<Mark>, i: nat, n: nat, j: nat, m: nat)
    requires 0 < n && FreeRun(s, i, n) && Group(s, j, m)
    ensures j + m <= i || i + n <= j
  {
    forall l | i <= l < i + n ensures !Within(l, j, m) {
      assert s[l] == FREE;
    }
    assert j + m <= i || i + n <= j || Within(if i < j then j else i, j, m);
  }

  /** Allocation adds one group and changes no other. */
  lemma TakenGroups(s: seq<Mark>, i: nat, n: nat, j: nat, m: nat)
    requires 0 < n && FreeRun(s, i, n)
    ensures Group(Taken(s, i, n), j, m) <==> Group(s, j, m) || (j == i && m == n)
  {
    var r := Taken(s, i, n);
    assert Group(r, i, n);
    if Group(r, j, m) {
      if i <= j {
        GroupsDisjoint(r, i, n, j, m);
      } else {
        GroupsDisjoint(r, j, m, i, n);
      }
      if j != i {
        SameGroup(s, r, j, m);
      }
    }
    if Group(s, j, m) {
      NoOverlap(s, i, n, j, m);
      SameGroup(s, r, j, m);
    }
  }

  /** Freeing removes one group and changes no other. */
  lemma ReleasedGroups(s: seq<Mark>, i: nat, n: nat, j: nat, m: nat)
    requires Group(s, i, n)
    ensures Group(Released(s, i, n), j, m) <==> Group(s, j, m) && j != i
  {
    var r := Released(s, i, n);
    if Group(r, j, m) {
      NoOverlap(r, i, n, j, m);
      SameGroup(s, r, j, m);
    }
    if Group(s, j, m) && j != i {
      if i <= j {
        GroupsDisjoint(s, i, n, j, m);
      } else {
        GroupsDisjoint(s, j, m, i, n);
      }
      SameGroup(s, r, j, m);
    }
  }

  /** A START mark begins exactly one group. */
  lemma StartHasGroup(s: seq<Mark>, i: nat) returns (n: nat)
    requires WellMarked(s) && i < |s| && s[i] == START_BOUNDARY
    ensures n > 1 && Group(s, i, n)
  {
    n := 1;
    assert MarkOk(s, i);
    while s[i + n] == USED
      invariant n >= 1 && i + n < |s| && s[i + n] in {USED, END_BOUNDARY}
      invariant forall j :: i < j < i + n ==> s[j] == USED
      decreases |s| - n
    {
      assert MarkOk(s, i + n);
      n := n + 1;
    }
    n := n + 1;
  }

  // ---------------------------------------------------------------- counting

  function CountUsed(s: seq<Mark>): nat {
    if s == [] then 0 else CountUsed(s[..|s| - 1]) + (if s[|s| - 1] == FREE then 0 else 1)
  }

  /** Changing n free marks into used ones adds n to the count. */
  lemma {:induction false} CountDiffers(s: seq<Mark>, r: seq<Mark>, i: nat, n: nat)
    requires |s| == |r|
    requires forall j :: 0 <= j < |s| && !(i <= j < i + n) ==> (s[j] == FREE <==> r[j] == FREE)
    requires forall j :: i <= j < i + n && j < |s| ==> s[j] == FREE && r[j] != FREE
    ensures CountUsed(r) == CountUsed(s) + (if |s| <= i then 0 else if |s| < i + n then |s| - i else n)
  {
    if s != [] {
      CountDiffers(s[..|s| - 1], r[..|r| - 1], i, n);
    }
  }

  lemma TakenCount(s: seq<Mark>, i: nat, n: nat)
    requires 0 < n && FreeRun(s, i, n)
    ensures CountUsed(Taken(s, i, n)) == CountUsed(s) + n
  {
    CountDiffers(s, Taken(s, i, n), i, n);
  }

  lemma ReleasedCount(s: seq<Mark>, i: nat, n: nat)
    requires Group(s, i, n)
    ensures CountUsed(Released(s, i, n)) == CountUsed(s) - n
  {
    CountDiffers(Released(s, i, n), s, i, n);
  }

  lemma {:induction false} CountBound(s: seq<Mark>)
    ensures CountUsed(s) <= |s|
  {
    if s != [] {
      CountBound(s[..|s| - 1]);
    }
  }

  /** A free run fits into what the count says is free, so the early exit loses nothing. */
  lemma RunFitsCount(s: seq<Mark>, i: nat, n: nat)
    requires 0 < n && FreeRun(s, i, n)
    ensures n <= |s| - CountUsed(s)
  {
    TakenCount(s, i, n);
    CountBound(Taken(s, i, n));
  }

  // ---------------------------------------------------------------- the manager

  class Manager {
    const start: nat
    const blockQty: nat
    const bitmap: array<Mark>
    var blocksUsed: nat
    var current: nat

    ghost predicate Valid()
      reads this, bitmap
    {
      && start > 0 && start % BLOCK_SIZE == 0
      && bitmap.Length == blockQty && blockQty * BLOCK_SIZE < WIDTH
      && WellMarked(bitmap[..]) && blocksUsed == CountUsed(bitmap[..]) && current <= blockQty
    }

    constructor (start: nat, blockQty: nat)
      requires start > 0 && start % BLOCK_SIZE == 0 && blockQty * BLOCK_SIZE < WIDTH
      ensures Valid() && fresh(bitmap) && FreeRun(bitmap[..], 0, blockQty)
    {
      this.start, this.blockQty, blocksUsed, current := start, blockQty, 0, 0;
      bitmap := new Mark[blockQty](_ => FREE);
      new;
      forall i | 0 <= i < blockQty ensures MarkOk(bitmap[..], i) {
      }
      CountFree(bitmap[..]);
    }

    function AddressOf(i: nat): nat
    {
      start + i * BLOCK_SIZE
    }

    /** The address of the lowest run of n free blocks between from and the end; 0 if there is none. */
    method FindFreeBlocks(n: nat, from: nat) returns (address: nat)
      requires Valid() && 0 < n && from <= blockQty
      ensures address == NULL ==> forall i: nat :: from <= i ==> !FreeRun(bitmap[..], i, n)
      ensures address != NULL ==>
                exists i: nat :: from <= i && FreeRun(bitmap[..], i, n) && address == AddressOf(i)
                  && (forall j: nat :: from <= j < i ==> !FreeRun(bitmap[..], j, n))
    {
      var freeBlocks := 0;
      for i := from to blockQty
        invariant freeBlocks < n && freeBlocks <= i - from
        invariant forall j :: i - freeBlocks <= j < i ==> bitmap[j] == FREE
        invariant freeBlocks < i - from ==> bitmap[i - freeBlocks - 1] != FREE
        invariant forall j: nat :: from <= j && j + n <= i ==> !FreeRun(bitmap[..], j, n)
      {
        if bitmap[i] == FREE {
          freeBlocks := freeBlocks + 1;
          if freeBlocks == n {
            var found: nat := i - n + 1;
            forall j: nat | from <= j < found ensures !FreeRun(bitmap[..], j, n) {
              assert j + n <= i;
            }
            assert FreeRun(bitmap[..], found, n);
            return start + found * BLOCK_SIZE;
          }
        } else {
          freeBlocks := 0;
        }
        forall j: nat | from <= j && j + n <= i + 1 ensures !FreeRun(bitmap[..], j, n) {
          if j + n == i + 1 {
            assert j <= i - freeBlocks && bitmap[..][i - freeBlocks] != FREE;
          }
        }
      }
      address := NULL;
    }

    /** Mark a free run of at least two blocks as one group. */
    method MarkGroupAsUsed(n: nat, index: nat) returns (address: nat)
      requires bitmap.Length == blockQty && n >= 2 && FreeRun(bitmap[..], index, n)
      modifies bitmap, this`blocksUsed
      ensures bitmap[..] == Taken(old(bitmap[..]), index, n)
      ensures blocksUsed == old(blocksUsed) + n && address == AddressOf(index)
    {
      bitmap[index] := START_BOUNDARY;
      bitmap[index + n - 1] := END_BOUNDARY;
      blocksUsed := blocksUsed + 2;
      for i := 1 to n - 1
        invariant blocksUsed == old(blocksUsed) + 1 + i
        invariant forall j :: 0 <= j < blockQty ==>
                    bitmap[j] == if index < j < index + i then USED
                                 else if j == index then START_BOUNDARY
                                 else if j == index + n - 1 then END_BOUNDARY
                                 else old(bitmap[j])
      {
        blocksUsed := blocksUsed + 1;
        bitmap[index + i] := USED;
      }
      address := start + index * BLOCK_SIZE;
    }

    /** The choice of the next-fit search: the lowest free run at or after the cursor, or else
        the lowest of all. */
    ghost predicate Chosen(s: seq<Mark>, cursor: nat, n: nat, i: nat) {
      && FreeRun(s, i, n)
      && (cursor <= i ==> forall j: nat :: cursor <= j < i ==> !FreeRun(s, j, n))
      && (i < cursor ==> forall j: nat :: j < i || cursor <= j ==> !FreeRun(s, j, n))
    }

    /** First from the cursor, then from the beginning. */
    method Search(n: nat) returns (address: nat)
      requires Valid() && 0 < n
      ensures address == NULL ==> forall i: nat :: !FreeRun(bitmap[..], i, n)
      ensures address != NULL ==> exists i: nat :: Chosen(bitmap[..], current, n, i) && address == AddressOf(i)
    {
      address := FindFreeBlocks(n, current);
      if address != NULL {
        ghost var i: nat :| current <= i && FreeRun(bitmap[..], i, n) && address == AddressOf(i)
                            && (forall j: nat :: current <= j < i ==> !FreeRun(bitmap[..], j, n));
        assert Chosen(bitmap[..], current, n, i);
        return;
      }
      address := FindFreeBlocks(n, 0);
      if address != NULL {
        ghost var i: nat :| 0 <= i && FreeRun(bitmap[..], i, n) && address == AddressOf(i)
                            && (forall j: nat :: 0 <= j < i ==> !FreeRun(bitmap[..], j, n));
        assert Chosen(bitmap[..], current, n, i);
      }
    }

    /** Mark a free run as allocated, one block or a group. */
    method Claim(n: nat, index: nat)
      requires bitmap.Length == blockQty && 0 < n && FreeRun(bitmap[..], index, n)
      modifies bitmap, this`blocksUsed
      ensures bitmap[..] == Taken(old(bitmap[..]), index, n) && blocksUsed == old(blocksUsed) + n
    {
      if n == 1 {
        blocksUsed := blocksUsed + 1;
        bitmap[index] := SINGLE_BLOCK;
      } else {
        var _ := MarkGroupAsUsed(n, index);
      }
    }

    /** NULL exactly when no run of enough free blocks exists anywhere; otherwise one is taken
        as a new group. */
    method AllocMemory(bytes: nat) returns (address: nat)
      requires Valid() && 0 < bytes < WIDTH
      modifies bitmap, this`blocksUsed, this`current
      ensures Valid()
      ensures address == NULL <==> forall i: nat :: !FreeRun(old(bitmap[..]), i, SizeToBlockQty(bytes))
      ensures address == NULL ==> bitmap[..] == old(bitmap[..]) && current == old(current)
      ensures address != NULL ==>
                exists i: nat :: Chosen(old(bitmap[..]), old(current), SizeToBlockQty(bytes), i)
                  && address == AddressOf(i)
                  && bitmap[..] == Taken(old(bitmap[..]), i, SizeToBlockQty(bytes))
                  && current == i + SizeToBlockQty(bytes)
    {
      var n := SizeToBlockQty(bytes);
      ghost var s := bitmap[..];
      CountBound(s);
      if n > blockQty - blocksUsed {
        forall i: nat ensures !FreeRun(s, i, n) {
          if FreeRun(s, i, n) {
            RunFitsCount(s, i, n);
          }
        }
        return NULL;
      }
      address := Search(n);
      if address == NULL {
        return;
      }
      ghost var i: nat :| Chosen(s, current, n, i) && address == AddressOf(i);
      IndexBack(i);
      TakenKeeps(s, i, n);
      TakenCount(s, i, n);
      current := SizeToBlockQty(address - start) + n;
      Claim(n, (address - start) / BLOCK_SIZE);
    }

    lemma IndexBack(i: nat)
      ensures (AddressOf(i) - start) / BLOCK_SIZE == i && SizeToBlockQty(AddressOf(i) - start) == i
    {
    }

    /** Give back a group by its address. NULL, a misaligned address, and an in-range address at
        which no group starts are ignored. */
    method FreeMemory(address: nat)
      requires Valid()
      requires address != NULL && address % BLOCK_SIZE == 0 ==> start <= address < AddressOf(blockQty)
      modifies bitmap, this`blocksUsed
      ensures Valid()
      ensures forall i: nat, n: nat :: address == AddressOf(i) && Group(old(bitmap[..]), i, n) ==>
                bitmap[..] == Released(old(bitmap[..]), i, n)
      ensures (forall i: nat, n: nat :: address == AddressOf(i) ==> !Group(old(bitmap[..]), i, n)) ==>
                bitmap[..] == old(bitmap[..]) && blocksUsed == old(blocksUsed)
    {
      ghost var s := bitmap[..];
      if address == NULL || address % BLOCK_SIZE != 0 {
        return;
      }
      var blockIndex := (address - start) / BLOCK_SIZE;
      assert address == AddressOf(blockIndex);
      if bitmap[blockIndex] == SINGLE_BLOCK {
        assert Group(s, blockIndex, 1);
        ReleasedKeeps(s, blockIndex, 1);
        ReleasedCount(s, blockIndex, 1);
        bitmap[blockIndex] := FREE;
        blocksUsed := blocksUsed - 1;
        assert bitmap[..] == Released(s, blockIndex, 1);
        return;
      }
      if bitmap[blockIndex] != START_BOUNDARY {
        return;
      }
      ghost var n := StartHasGroup(s, blockIndex);
      ReleasedKeeps(s, blockIndex, n);
      ReleasedCount(s, blockIndex, n);
      var blocksToFree := 0;
      while bitmap[blockIndex + blocksToFree] != END_BOUNDARY
        invariant blocksToFree < n && blocksUsed == old(blocksUsed)
        invariant forall j :: 0 <= j < blockQty ==>
                    bitmap[j] == if blockIndex <= j < blockIndex + blocksToFree then FREE else s[j]
        decreases n - blocksToFree
      {
        bitmap[blockIndex + blocksToFree] := FREE;
        blocksToFree := blocksToFree + 1;
      }
      assert s[blockIndex + blocksToFree] == END_BOUNDARY && blocksToFree == n - 1;
      bitmap[blockIndex + blocksToFree] := FREE;
      blocksUsed := blocksUsed - (blocksToFree + 1);
      assert bitmap[..] == Released(s, blockIndex, n);
    }

    method GetMemoryInfo() returns (total: nat, used: nat, free: nat)
      requires Valid()
      ensures total == blockQty * BLOCK_SIZE && used == CountUsed(bitmap[..]) * BLOCK_SIZE && total == used + free
    {
      CountBound(bitmap[..]);
      total := blockQty * BLOCK_SIZE;
      used := blocksUsed * BLOCK_SIZE;
      free := total - used;
    }
  }

  lemma {:induction false} CountFree(s: seq<Mark>)
    requires forall i :: 0 <= i < |s| ==> s[i] == FREE
    ensures CountUsed(s) == 0
  {
    if s != [] {
      CountFree(s[..|s| - 1]);
    }
  }
}
