/** The BMFS directory: 64 entries in place, and where a new file's blocks go. The entries are
    sorted by the C library; what its sort leaves is a parameter, any order its comparison allows. */
module BmfsDirectory {
  import opened Options

  const ENTRIES: nat := 64
  const WORD: int := 0x1_0000_0000_0000_0000   // unsigned 64-bit arithmetic
  const DELETED: char := 1 as char

  /** name is the FileName field up to its first zero byte; its first byte is also the entry's mark. */
  datatype Entry = Entry(name: string, start: nat, reserved: nat, size: nat) {
    predicate IsEnd() { name == "" }
    predicate IsDeleted() { name != "" && name[0] == DELETED }
    predicate IsLive() { name != "" && name[0] != DELETED }
    function End(): nat { start + reserved }
  }

  datatype Outcome = Created(start: nat) | Exists | NoSlot | NoRoom

  // ---------------------------------------------------------------- reading the directory

  /** Entries before the terminator; all of them if there is none. */
  function UsedCount(d: seq<Entry>): (n: nat)
    ensures n <= |d| && (forall i :: 0 <= i < n ==> !d[i].IsEnd()) && (n < |d| ==> d[n].IsEnd())
  {
    if d == [] || d[0].IsEnd() then 0
    else
      assert forall i :: 0 < i < |d| ==> d[i] == d[1..][i - 1];
      1 + UsedCount(d[1..])
  }

  /** The count that create works with: 0 for a directory without terminator. */
  function NumUsed(d: seq<Entry>): nat { if UsedCount(d) < |d| then UsedCount(d) else 0 }

  /** First entry that is not live: deleted, or the terminator. */
  function FirstFree(d: seq<Entry>): (r: Option<nat>)
    ensures r.Some? ==> r.value < |d| && r.value <= UsedCount(d) && !d[r.value].IsLive()
    ensures r.Some? ==> forall i :: 0 <= i < r.value ==> d[i].IsLive()
    ensures r.None? ==> forall i :: 0 <= i < |d| ==> d[i].IsLive()
  {
    if d == [] then None
    else if !d[0].IsLive() then Some(0)
    else
      assert forall i :: 0 < i < |d| ==> d[i] == d[1..][i - 1];
      match FirstFree(d[1..]) case Some(i) => Some(i + 1) case None => None
  }

  ghost predicate Holds(d: seq<Entry>, name: string, i: nat) {
    i < UsedCount(d) && d[i].IsLive() && d[i].name == name
  }

  /** Space for so many MiB, in blocks of two. */
  function BlocksFor(maxsize: nat): nat {
    (if maxsize % 2 != 0 then (maxsize + 1) % WORD else maxsize) / 2
  }

  // ---------------------------------------------------------------- sorting and scanning

  /** order lists the first n entries by position, live ones first and by starting block. */
  ghost predicate SortedBy(d: seq<Entry>, n: nat, order: seq<nat>) {
    && n <= |d| && |order| == n
    && (forall i :: 0 <= i < n ==> order[i] < n)
    && (forall i, j :: 0 <= i < j < n ==> order[i] != order[j])
    && (forall a :: 0 <= a < n ==> a in order)
    && (forall i, j :: 0 <= i < j < n ==>
          && (d[order[i]].IsDeleted() ==> d[order[j]].IsDeleted())
          && (d[order[j]].IsLive() ==> d[order[i]].start <= d[order[j]].start))
  }

  function Arranged(d: seq<Entry>, order: seq<nat>): (s: seq<Entry>)
    requires forall i :: 0 <= i < |order| ==> order[i] < |d|
    ensures |s| == |order| && forall i :: 0 <= i < |s| ==> s[i] == d[order[i]]
  {
    seq(|order|, i requires 0 <= i < |order| => d[order[i]])
  }

  function Sub(a: int, b: int): int { (a - b) % WORD }

  /** Where entry i, or the end of the disk, bounds the gap. */
  function GapEnd(s: seq<Entry>, i: nat, numBlocks: nat): int
    requires i <= |s|
  {
    if i == |s| || s[i].IsDeleted() then Sub(numBlocks, 1) else s[i].start
  }

  /** The block the scan settles on, from entry i with the previous file ending at prev; 0 for none. */
  function Scan(s: seq<Entry>, i: nat, prev: int, numBlocks: nat, blocks: nat): int
    requires i <= |s|
    decreases |s| - i
  {
    if Sub(GapEnd(s, i, numBlocks), prev) >= blocks then prev
    else if i == |s| then 0
    else Scan(s, i + 1, s[i].End() % WORD, numBlocks, blocks)
  }

  /** The directory with the new entry in its slot; a terminator that was overwritten moves on. */
  function After(d: seq<Entry>, slot: nat, name: string, start: nat, blocks: nat): (r: seq<Entry>)
    requires slot < |d|
    ensures |r| == |d|
  {
    var e := d[slot := Entry(name, start, blocks, 0)];
    if slot == NumUsed(d) && NumUsed(d) + 1 < |d| then e[NumUsed(d) + 1 := e[NumUsed(d) + 1].(name := "")] else e
  }

  // ---------------------------------------------------------------- what a good directory is

  ghost predicate Clear(e: Entry, x: nat, blocks: nat) {
    e.IsLive() ==> x + blocks <= e.start || e.End() <= x
  }

  /** The blocks from x on are data blocks that no live file holds. */
  ghost predicate FreeAt(d: seq<Entry>, numBlocks: nat, x: nat, blocks: nat) {
    && 1 <= x && x + blocks <= numBlocks - 1
    && (forall i {:trigger d[i]} :: 0 <= i < UsedCount(d) ==> Clear(d[i], x, blocks))
  }

  ghost predicate RoomSomewhere(d: seq<Entry>, numBlocks: nat, blocks: nat) {
    exists x :: FreeAt(d, numBlocks, x, blocks)
  }

  /** A deleted entry whose old extent ends early enough to mislead a scan that found no gap. */
  ghost predicate StaleRoom(d: seq<Entry>, numBlocks: nat, blocks: nat) {
    exists a :: 0 <= a < UsedCount(d) && d[a].IsDeleted() && d[a].End() + blocks <= numBlocks - 1
  }

  ghost predicate InRange(e: Entry, numBlocks: nat) {
    1 <= e.start && 1 <= e.reserved && e.End() <= numBlocks - 1
  }

  /** Every file that is or was lies within the data blocks; no two live files share a block. */
  ghost predicate ExtentsOk(d: seq<Entry>, numBlocks: nat) {
    && (forall i {:trigger d[i]} :: 0 <= i < UsedCount(d) ==> InRange(d[i], numBlocks))
    && (forall i, j {:trigger d[i], d[j]} :: 0 <= i < UsedCount(d) && 0 <= j < UsedCount(d) && i != j && d[j].IsLive() ==>
          Clear(d[i], d[j].start, d[j].reserved))
  }

  /** The directory of a formatted disk after these entries were written in order. */
  function Listing(es: seq<Entry>): seq<Entry>
    requires |es| <= ENTRIES
  {
    es + seq(ENTRIES - |es|, _ => Entry("", 0, 0, 0))
  }

  ghost predicate Terminated(d: seq<Entry>) { UsedCount(d) < |d| }

  ghost predicate DiskOk(d: seq<Entry>, numBlocks: nat) {
    3 <= numBlocks < 0x8000_0000 && Terminated(d) && ExtentsOk(d, numBlocks)
  }

  // ---------------------------------------------------------------- first fit

  /** What the scan knows before entry i of the live part: prev is where the files before it end. */
  ghost predicate Reached(d: seq<Entry>, order: seq<nat>, i: nat, prev: nat, numBlocks: nat, blocks: nat)
    requires SortedBy(d, UsedCount(d), order)
  {
    && i <= |order| && 1 <= prev <= numBlocks - 1
    && (forall j :: 0 <= j < i ==> d[order[j]].IsLive() && d[order[j]].End() <= prev)
    && (i < |order| && d[order[i]].IsLive() ==> prev <= d[order[i]].start)
    && (forall x {:trigger FreeAt(d, numBlocks, x, blocks)} :: FreeAt(d, numBlocks, x, blocks) ==> prev <= x)
  }

  lemma LaterFilesLater(d: seq<Entry>, order: seq<nat>, i: nat, j: nat, numBlocks: nat)
    requires DiskOk(d, numBlocks) && SortedBy(d, UsedCount(d), order)
    requires i < j < |order| && d[order[i]].IsLive() && d[order[j]].IsLive()
    ensures d[order[i]].End() <= d[order[j]].start
  {
    var a, b := order[i], order[j];
    assert InRange(d[b], numBlocks) && Clear(d[a], d[b].start, d[b].reserved);
  }

  /** A file that did not leave a large enough gap in front of it is passed. */
  lemma ReachNext(d: seq<Entry>, order: seq<nat>, i: nat, prev: nat, numBlocks: nat, blocks: nat)
    requires DiskOk(d, numBlocks) && SortedBy(d, UsedCount(d), order) && blocks > 0
    requires Reached(d, order, i, prev, numBlocks, blocks) && i < |order| && d[order[i]].IsLive()
    requires d[order[i]].start - prev < blocks
    ensures Reached(d, order, i + 1, d[order[i]].End(), numBlocks, blocks)
  {
    var e := d[order[i]];
    assert InRange(e, numBlocks);
    forall j | 0 <= j < i + 1 ensures d[order[j]].IsLive() && d[order[j]].End() <= e.End() {
      if j < i {
        LaterFilesLater(d, order, j, i, numBlocks);
      }
    }
    if i + 1 < |order| && d[order[i + 1]].IsLive() {
      LaterFilesLater(d, order, i, i + 1, numBlocks);
    }
    forall x | FreeAt(d, numBlocks, x, blocks) ensures e.End() <= x {
      assert Clear(d[order[i]], x, blocks);
    }
  }

  /** A large enough gap in front of file i, or of the end of the disk, is the lowest free place. */
  lemma GapIsFree(d: seq<Entry>, order: seq<nat>, i: nat, prev: nat, numBlocks: nat, blocks: nat)
    requires DiskOk(d, numBlocks) && SortedBy(d, UsedCount(d), order)
    requires Reached(d, order, i, prev, numBlocks, blocks)
    requires prev + blocks <= if i < |order| && d[order[i]].IsLive() then d[order[i]].start else numBlocks - 1
    ensures FreeAt(d, numBlocks, prev, blocks)
  {
    if i < |order| {
      assert InRange(d[order[i]], numBlocks);
    }
    forall a | 0 <= a < UsedCount(d) ensures Clear(d[a], prev, blocks) {
      assert a in order;
      var j :| 0 <= j < |order| && order[j] == a;
      if j > i && d[a].IsLive() {
        assert d[order[i]].IsLive();
        LaterFilesLater(d, order, i, j, numBlocks);
      }
    }
  }

  /** A deleted entry bounds the gap by the end of the disk; if that is too near, it is passed. */
  lemma ScanPast(s: seq<Entry>, i: nat, prev: nat, numBlocks: nat, blocks: nat)
    requires i <= |s| && 3 <= numBlocks < 0x8000_0000 && 1 <= prev <= numBlocks - 1 && blocks > 0
    requires i < |s| ==> s[i].IsDeleted() && InRange(s[i], numBlocks)
    ensures Scan(s, i, prev, numBlocks, blocks) ==
              if prev + blocks <= numBlocks - 1 then prev
              else if i == |s| then 0 else Scan(s, i + 1, s[i].End(), numBlocks, blocks)
  {
  }

  lemma {:induction false} ScanDeleted(s: seq<Entry>, i: nat, prev: nat, numBlocks: nat, blocks: nat)
    requires i <= |s| && 3 <= numBlocks < 0x8000_0000 && 1 <= prev <= numBlocks - 1 && blocks > 0
    requires forall j :: i <= j < |s| ==> s[j].IsDeleted() && InRange(s[j], numBlocks)
    ensures var r := Scan(s, i, prev, numBlocks, blocks);
            && (r != 0 <==> prev + blocks <= numBlocks - 1 || exists j :: i <= j < |s| && s[j].End() + blocks <= numBlocks - 1)
            && (r != 0 ==> 1 <= r && r + blocks <= numBlocks - 1)
            && (prev + blocks <= numBlocks - 1 ==> r == prev)
    decreases |s| - i
  {
    ScanPast(s, i, prev, numBlocks, blocks);
    if i < |s| && prev + blocks > numBlocks - 1 {
      assert InRange(s[i], numBlocks);
      ScanDeleted(s, i + 1, s[i].End(), numBlocks, blocks);
    }
  }

  ghost predicate Fits(d: seq<Entry>, numBlocks: nat, blocks: nat, r: int) {
    && (r == 0 || (1 <= r && r + blocks <= numBlocks - 1))
    && (RoomSomewhere(d, numBlocks, blocks) ==>
          r > 0 && FreeAt(d, numBlocks, r, blocks) && forall x :: FreeAt(d, numBlocks, x, blocks) ==> r <= x)
    && (!RoomSomewhere(d, numBlocks, blocks) ==> (r != 0 <==> StaleRoom(d, numBlocks, blocks)))
  }

  /** The deleted entries are those from i on in the sorted order. */
  lemma StaleInOrder(d: seq<Entry>, order: seq<nat>, i: nat, prev: nat, numBlocks: nat, blocks: nat)
    requires SortedBy(d, UsedCount(d), order) && Reached(d, order, i, prev, numBlocks, blocks)
    requires i == |order| || d[order[i]].IsDeleted()
    ensures var s := Arranged(d, order);
            && (forall j :: i <= j < |s| ==> s[j].IsDeleted())
            && ((exists j :: i <= j < |s| && s[j].End() + blocks <= numBlocks - 1) <==> StaleRoom(d, numBlocks, blocks))
  {
    var s := Arranged(d, order);
    forall j | i <= j < |s| ensures s[j].IsDeleted() {
      assert i < j ==> d[order[i]].IsDeleted();
    }
    if StaleRoom(d, numBlocks, blocks) {
      var a :| 0 <= a < UsedCount(d) && d[a].IsDeleted() && d[a].End() + blocks <= numBlocks - 1;
      assert a in order;
      var j :| 0 <= j < |order| && order[j] == a;
      assert s[j].End() + blocks <= numBlocks - 1;
    }
    if exists j :: i <= j < |s| && s[j].End() + blocks <= numBlocks - 1 {
      var j :| i <= j < |s| && s[j].End() + blocks <= numBlocks - 1;
      assert d[order[j]].IsDeleted();
    }
  }

  lemma NoRoomLeft(d: seq<Entry>, order: seq<nat>, i: nat, prev: nat, numBlocks: nat, blocks: nat)
    requires SortedBy(d, UsedCount(d), order) && Reached(d, order, i, prev, numBlocks, blocks)
    requires prev + blocks > numBlocks - 1
    ensures !RoomSomewhere(d, numBlocks, blocks)
  {
  }

  lemma TailInRange(d: seq<Entry>, order: seq<nat>, numBlocks: nat)
    requires DiskOk(d, numBlocks) && SortedBy(d, UsedCount(d), order)
    ensures forall j :: 0 <= j < |order| ==> InRange(Arranged(d, order)[j], numBlocks)
  {
    forall j | 0 <= j < |order| ensures InRange(Arranged(d, order)[j], numBlocks) {
      assert InRange(d[order[j]], numBlocks);
    }
  }

  lemma TailScan(d: seq<Entry>, order: seq<nat>, i: nat, prev: nat, numBlocks: nat, blocks: nat)
    requires DiskOk(d, numBlocks) && SortedBy(d, UsedCount(d), order) && blocks > 0
    requires Reached(d, order, i, prev, numBlocks, blocks)
    requires i == |order| || d[order[i]].IsDeleted()
    ensures var r := Scan(Arranged(d, order), i, prev, numBlocks, blocks);
            && (r == 0 || (1 <= r && r + blocks <= numBlocks - 1))
            && if prev + blocks <= numBlocks - 1 then r == prev else (r != 0 <==> StaleRoom(d, numBlocks, blocks))
  {
    var s := Arranged(d, order);
    StaleInOrder(d, order, i, prev, numBlocks, blocks);
    TailInRange(d, order, numBlocks);
    ScanDeleted(s, i, prev, numBlocks, blocks);
  }

  lemma ScanTail(d: seq<Entry>, order: seq<nat>, i: nat, prev: nat, numBlocks: nat, blocks: nat)
    requires DiskOk(d, numBlocks) && SortedBy(d, UsedCount(d), order) && blocks > 0
    requires Reached(d, order, i, prev, numBlocks, blocks)
    requires i == |order| || d[order[i]].IsDeleted()
    ensures Fits(d, numBlocks, blocks, Scan(Arranged(d, order), i, prev, numBlocks, blocks))
  {
    TailScan(d, order, i, prev, numBlocks, blocks);
    if prev + blocks <= numBlocks - 1 {
      GapIsFree(d, order, i, prev, numBlocks, blocks);
      FreeFits(d, numBlocks, blocks, prev);
    } else {
      NoRoomLeft(d, order, i, prev, numBlocks, blocks);
    }
  }

  lemma ScanLive(s: seq<Entry>, i: nat, prev: nat, numBlocks: nat, blocks: nat)
    requires i < |s| && s[i].IsLive() && InRange(s[i], numBlocks) && 1 <= prev <= s[i].start && numBlocks < 0x8000_0000
    ensures Scan(s, i, prev, numBlocks, blocks) ==
              if prev + blocks <= s[i].start then prev else Scan(s, i + 1, s[i].End(), numBlocks, blocks)
  {
  }

  lemma FreeFits(d: seq<Entry>, numBlocks: nat, blocks: nat, r: nat)
    requires FreeAt(d, numBlocks, r, blocks) && forall x :: FreeAt(d, numBlocks, x, blocks) ==> r <= x
    ensures Fits(d, numBlocks, blocks, r)
  {
  }

  lemma {:induction false} ScanFits(d: seq<Entry>, order: seq<nat>, i: nat, prev: nat, numBlocks: nat, blocks: nat)
    requires DiskOk(d, numBlocks) && SortedBy(d, UsedCount(d), order) && blocks > 0
    requires Reached(d, order, i, prev, numBlocks, blocks)
    ensures Fits(d, numBlocks, blocks, Scan(Arranged(d, order), i, prev, numBlocks, blocks))
    decreases |order| - i
  {
    if i == |order| || !d[order[i]].IsLive() {
      ScanTail(d, order, i, prev, numBlocks, blocks);
      return;
    }
    var e := d[order[i]];
    assert InRange(e, numBlocks);
    ScanLive(Arranged(d, order), i, prev, numBlocks, blocks);
    if prev + blocks <= e.start {
      GapIsFree(d, order, i, prev, numBlocks, blocks);
      FreeFits(d, numBlocks, blocks, prev);
    } else {
      ReachNext(d, order, i, prev, numBlocks, blocks);
      ScanFits(d, order, i + 1, e.End(), numBlocks, blocks);
    }
  }

  /** First fit: if enough consecutive free blocks exist anywhere, the lowest such place is taken,
      whatever deleted entries the directory has and however the sort arranges equals. If none
      exist, the request is refused exactly when no deleted entry's old end leaves so many blocks
      to the end of the disk. */
  lemma FirstFit(d: seq<Entry>, order: seq<nat>, numBlocks: nat, blocks: nat)
    requires DiskOk(d, numBlocks) && SortedBy(d, UsedCount(d), order) && blocks > 0
    ensures var r := Scan(Arranged(d, order), 0, 1, numBlocks, blocks);
            && (RoomSomewhere(d, numBlocks, blocks) ==>
                  r > 0 && FreeAt(d, numBlocks, r, blocks) && forall x :: FreeAt(d, numBlocks, x, blocks) ==> r <= x)
            && (!RoomSomewhere(d, numBlocks, blocks) ==> (r != 0 <==> StaleRoom(d, numBlocks, blocks)))
            && (r != 0 ==> 1 <= r && r + blocks <= numBlocks - 1)
  {
    if |order| > 0 {
      assert InRange(d[order[0]], numBlocks);
    }
    ScanFits(d, order, 0, 1, numBlocks, blocks);
  }

  // ---------------------------------------------------------------- what create keeps

  lemma {:induction false} UsedIs(d: seq<Entry>, n: nat)
    requires n <= |d| && (forall i :: 0 <= i < n ==> !d[i].IsEnd()) && (n < |d| ==> d[n].IsEnd())
    ensures UsedCount(d) == n
  {
  }

  lemma AfterUsed(d: seq<Entry>, slot: nat, name: string, start: nat, blocks: nat)
    requires Terminated(d) && FirstFree(d) == Some(slot) && name != ""
    ensures UsedCount(After(d, slot, name, start, blocks)) == (if slot == UsedCount(d) then slot + 1 else UsedCount(d))
  {
    UsedIs(After(d, slot, name, start, blocks), if slot == UsedCount(d) then slot + 1 else UsedCount(d));
  }

  lemma FreePlaceKeeps(d: seq<Entry>, numBlocks: nat, slot: nat, name: string, start: nat, blocks: nat)
    requires DiskOk(d, numBlocks) && FirstFree(d) == Some(slot) && blocks > 0 && name != ""
    requires FreeAt(d, numBlocks, start, blocks)
    ensures ExtentsOk(After(d, slot, name, start, blocks), numBlocks)
  {
    var r := After(d, slot, name, start, blocks);
    AfterUsed(d, slot, name, start, blocks);
    forall i | 0 <= i < UsedCount(r) ensures InRange(r[i], numBlocks) {
      if i != slot {
        assert r[i] == d[i] && InRange(d[i], numBlocks);
      }
    }
    forall i, j | 0 <= i < UsedCount(r) && 0 <= j < UsedCount(r) && i != j && r[j].IsLive()
      ensures Clear(r[i], r[j].start, r[j].reserved)
    {
      if i == slot {
        assert r[j] == d[j] && Clear(d[j], start, blocks);
      } else if j == slot {
        assert r[i] == d[i] && Clear(d[i], start, blocks);
      } else {
        assert r[i] == d[i] && r[j] == d[j] && Clear(d[i], d[j].start, d[j].reserved);
      }
    }
  }

  lemma KeptPlaceWasFree(d: seq<Entry>, numBlocks: nat, slot: nat, name: string, start: nat, blocks: nat)
    requires DiskOk(d, numBlocks) && FirstFree(d) == Some(slot) && blocks > 0 && name != "" && name[0] != DELETED
    requires ExtentsOk(After(d, slot, name, start, blocks), numBlocks)
    ensures FreeAt(d, numBlocks, start, blocks)
  {
    var r := After(d, slot, name, start, blocks);
    AfterUsed(d, slot, name, start, blocks);
    assert InRange(r[slot], numBlocks);
    forall i | 0 <= i < UsedCount(d) ensures Clear(d[i], start, blocks) {
      if i != slot {
        assert r[i] == d[i] && Clear(r[i], r[slot].start, r[slot].reserved);
      }
    }
  }

  /** A new file keeps live extents disjoint and in range exactly when its place was free; the
      directory keeps a terminator exactly when the last entry is not the one used. */
  lemma CreationKeepsExactly(d: seq<Entry>, numBlocks: nat, slot: nat, name: string, start: nat, blocks: nat)
    requires DiskOk(d, numBlocks) && FirstFree(d) == Some(slot) && blocks > 0
    requires name != "" && name[0] != DELETED
    ensures var r := After(d, slot, name, start, blocks);
            && (ExtentsOk(r, numBlocks) <==> FreeAt(d, numBlocks, start, blocks))
            && (Terminated(r) <==> slot < |d| - 1)
  {
    AfterUsed(d, slot, name, start, blocks);
    if FreeAt(d, numBlocks, start, blocks) {
      FreePlaceKeeps(d, numBlocks, slot, name, start, blocks);
    }
    if ExtentsOk(After(d, slot, name, start, blocks), numBlocks) {
      KeptPlaceWasFree(d, numBlocks, slot, name, start, blocks);
    }
  }

  /** So the whole operation keeps live extents disjoint if and only if it refuses, or there was
      room: a deleted entry can make it hand out blocks of a live file when the disk is full. */
  lemma CreateIsSafeExactly(d: seq<Entry>, order: seq<nat>, numBlocks: nat, slot: nat, name: string, blocks: nat)
    requires DiskOk(d, numBlocks) && SortedBy(d, UsedCount(d), order) && blocks > 0
    requires FirstFree(d) == Some(slot) && name != "" && name[0] != DELETED
    ensures var r := Scan(Arranged(d, order), 0, 1, numBlocks, blocks);
            (r <= 0 || ExtentsOk(After(d, slot, name, r, blocks), numBlocks)) <==>
            RoomSomewhere(d, numBlocks, blocks) || !StaleRoom(d, numBlocks, blocks)
  {
    FirstFit(d, order, numBlocks, blocks);
    var r := Scan(Arranged(d, order), 0, 1, numBlocks, blocks);
    if r > 0 {
      CreationKeepsExactly(d, numBlocks, slot, name, r, blocks);
    }
  }

  /** Files are made with a size of at least one MiB; the blocks reserved are the fewest that hold
      it, and never none. */
  lemma CreatedFilesHaveBlocks(maxsize: nat)
    requires 1 <= maxsize < 0x8000_0000
    ensures 1 <= BlocksFor(maxsize) && 2 * (BlocksFor(maxsize) - 1) < maxsize <= 2 * BlocksFor(maxsize)
  {
  }

  /** Without a terminator the scan sees no entry at all: any file that fits goes to block 1. */
  lemma FullDirectoryScan(d: seq<Entry>, numBlocks: nat, blocks: nat)
    requires !Terminated(d) && 3 <= numBlocks < 0x8000_0000
    ensures NumUsed(d) == 0 && SortedBy(d, NumUsed(d), [])
    ensures Scan(Arranged(d, []), 0, 1, numBlocks, blocks) == (if blocks <= numBlocks - 2 then 1 else 0)
  {
  }

  /** What the creation leaves visible: everything, unless the first entry is the one reused; then
      the terminator lands right behind it and every other file is gone. */
  lemma FullDirectoryUsed(d: seq<Entry>, slot: nat, name: string, blocks: nat)
    requires !Terminated(d) && |d| > 1 && slot < |d| && name != ""
    ensures UsedCount(After(d, slot, name, 1, blocks)) == if slot == 0 then 1 else |d|
  {
    UsedIs(After(d, slot, name, 1, blocks), if slot == 0 then 1 else |d|);
  }

  /** Creation in a directory without terminator, which happens when the last entry was taken and
      some file was deleted since. A request that fits the disk keeps every file visible and files
      apart if and only if the entry reused is not the first and the blocks from 1 on are free. */
  lemma FullCreationIsSafeExactly(d: seq<Entry>, numBlocks: nat, slot: nat, name: string, blocks: nat)
    requires !Terminated(d) && |d| > 1 && ExtentsOk(d, numBlocks) && 3 <= numBlocks < 0x8000_0000
    requires FirstFree(d) == Some(slot) && name != "" && name[0] != DELETED && 0 < blocks <= numBlocks - 2
    ensures SortedBy(d, NumUsed(d), []) && Scan(Arranged(d, []), 0, 1, numBlocks, blocks) == 1
    ensures var r := After(d, slot, name, 1, blocks);
            UsedCount(r) == |d| && ExtentsOk(r, numBlocks) <==> slot > 0 && FreeAt(d, numBlocks, 1, blocks)
  {
    FullDirectoryScan(d, numBlocks, blocks);
    FullDirectoryUsed(d, slot, name, blocks);
    if slot > 0 {
      ReplacedExtents(d, numBlocks, slot, Entry(name, 1, blocks, 0));
    }
  }

  /** Reusing an entry that is not live keeps extents apart exactly if the new extent is free. */
  lemma ReplacedExtents(d: seq<Entry>, numBlocks: nat, slot: nat, e: Entry)
    requires ExtentsOk(d, numBlocks) && slot < UsedCount(d) && !d[slot].IsLive()
    requires e.IsLive() && e.reserved > 0 && UsedCount(d[slot := e]) == UsedCount(d)
    ensures ExtentsOk(d[slot := e], numBlocks) <==> FreeAt(d, numBlocks, e.start, e.reserved)
  {
    var r := d[slot := e];
    if FreeAt(d, numBlocks, e.start, e.reserved) {
      forall i | 0 <= i < UsedCount(r) ensures InRange(r[i], numBlocks) {
        assert i != slot ==> r[i] == d[i] && InRange(d[i], numBlocks);
      }
      forall i, j | 0 <= i < UsedCount(r) && 0 <= j < UsedCount(r) && i != j && r[j].IsLive()
        ensures Clear(r[i], r[j].start, r[j].reserved)
      {
        if i == slot {
          assert r[j] == d[j] && Clear(d[j], e.start, e.reserved);
        } else if j == slot {
          assert r[i] == d[i] && Clear(d[i], e.start, e.reserved);
        } else {
          assert r[i] == d[i] && r[j] == d[j] && Clear(d[i], d[j].start, d[j].reserved);
        }
      }
    }
    if ExtentsOk(r, numBlocks) {
      assert InRange(r[slot], numBlocks);
      forall i | 0 <= i < UsedCount(d) ensures Clear(d[i], e.start, e.reserved) {
        assert i != slot ==> r[i] == d[i] && Clear(r[i], r[slot].start, r[slot].reserved);
      }
    }
  }

  // ---------------------------------------------------------------- whole runs

  function Deleted(d: seq<Entry>, slot: nat): seq<Entry>
    requires slot < |d| && d[slot].name != ""
  {
    d[slot := d[slot].(name := d[slot].name[0 := DELETED])]
  }

  /** Deleting a file frees its blocks and touches no other. */
  lemma DeletionKeeps(d: seq<Entry>, numBlocks: nat, slot: nat)
    requires DiskOk(d, numBlocks) && slot < UsedCount(d) && d[slot].IsLive()
    ensures DiskOk(Deleted(d, slot), numBlocks)
    ensures FreeAt(Deleted(d, slot), numBlocks, d[slot].start, d[slot].reserved)
  {
    var r := Deleted(d, slot);
    UsedIs(r, UsedCount(d));
    assert InRange(d[slot], numBlocks);
    forall i | 0 <= i < UsedCount(r) ensures InRange(r[i], numBlocks) {
      assert InRange(d[i], numBlocks);
    }
    forall i, j | 0 <= i < UsedCount(r) && 0 <= j < UsedCount(r) && i != j && r[j].IsLive()
      ensures Clear(r[i], r[j].start, r[j].reserved)
    {
      assert Clear(d[i], d[j].start, d[j].reserved);
    }
    forall i | 0 <= i < UsedCount(r) ensures Clear(r[i], d[slot].start, d[slot].reserved) {
      assert i != slot ==> Clear(d[i], d[slot].start, d[slot].reserved);
    }
  }

  /** The files there are, by slot. */
  ghost function Files(d: seq<Entry>): map<nat, Entry> { map i: nat | i < UsedCount(d) && d[i].IsLive() :: d[i] }

  /** A creation adds one file, with the name, place and size given and nothing in it, in a slot that
      held none; every other file stays what and where it was. */
  lemma CreationAddsOne(d: seq<Entry>, slot: nat, name: string, start: nat, blocks: nat)
    requires Terminated(d) && FirstFree(d) == Some(slot) && name != "" && name[0] != DELETED
    ensures slot !in Files(d) && Files(After(d, slot, name, start, blocks)) == Files(d)[slot := Entry(name, start, blocks, 0)]
  {
    AfterUsed(d, slot, name, start, blocks);
  }

  /** A deletion takes exactly that file away. */
  lemma DeletionRemovesOne(d: seq<Entry>, slot: nat)
    requires slot < UsedCount(d) && d[slot].IsLive()
    ensures Files(Deleted(d, slot)) == Files(d) - {slot}
  {
    UsedIs(Deleted(d, slot), UsedCount(d));
  }

  datatype Step = Make(name: string, blocks: nat, order: seq<nat>) | Drop(slot: nat)

  /** Steps with real file names and sizes, in directories with an entry to spare; a file is only
      made where the scan cannot be misled. */
  ghost predicate Sound(d: seq<Entry>, e: Step, numBlocks: nat) {
    match e
    case Make(name, blocks, order) =>
      && name != "" && name[0] != DELETED && blocks > 0 && SortedBy(d, NumUsed(d), order)
      && FirstFree(d).Some? && FirstFree(d).value < |d| - 1
      && (RoomSomewhere(d, numBlocks, blocks) || !StaleRoom(d, numBlocks, blocks))
    case Drop(slot) => slot < UsedCount(d) && d[slot].IsLive()
  }

  function Next(d: seq<Entry>, e: Step, numBlocks: nat): (r: seq<Entry>)
    requires Sound(d, e, numBlocks)
    ensures |r| == |d|
  {
    match e
    case Make(name, blocks, order) =>
      var r := Scan(Arranged(d, order), 0, 1, numBlocks, blocks);
      if r > 0 then After(d, FirstFree(d).value, name, r, blocks) else d
    case Drop(slot) => Deleted(d, slot)
  }

  lemma StepKeeps(d: seq<Entry>, e: Step, numBlocks: nat)
    requires DiskOk(d, numBlocks) && Sound(d, e, numBlocks)
    ensures DiskOk(Next(d, e, numBlocks), numBlocks)
  {
    match e
    case Make(name, blocks, order) =>
      FirstFit(d, order, numBlocks, blocks);
      var r := Scan(Arranged(d, order), 0, 1, numBlocks, blocks);
      if r > 0 {
        CreationKeepsExactly(d, numBlocks, FirstFree(d).value, name, r, blocks);
      }
    case Drop(slot) => DeletionKeeps(d, numBlocks, slot);
  }

  /** A run of sound steps leads from d to r. */
  ghost predicate Reaches(d: seq<Entry>, es: seq<Step>, numBlocks: nat, r: seq<Entry>)
    decreases |es|
  {
    if es == [] then r == d
    else Sound(d, es[0], numBlocks) && Reaches(Next(d, es[0], numBlocks), es[1..], numBlocks, r)
  }

  /** In every run of sound steps from a good disk, a formatted one for instance, live files never
      share a block. */
  lemma {:induction false} FilesNeverOverlap(d: seq<Entry>, es: seq<Step>, numBlocks: nat, r: seq<Entry>)
    requires DiskOk(d, numBlocks) && Reaches(d, es, numBlocks, r)
    ensures DiskOk(r, numBlocks)
    decreases |es|
  {
    if es != [] {
      StepKeeps(d, es[0], numBlocks);
      FilesNeverOverlap(Next(d, es[0], numBlocks), es[1..], numBlocks, r);
    }
  }

  // ---------------------------------------------------------------- the directory in memory

  class Disk {
    const directory: array<Entry>
    const numBlocks: nat

    ghost predicate Valid() {
      directory.Length == ENTRIES && 1 <= numBlocks
    }

    /** A formatted disk of so many MiB. */
    constructor (diskSize: nat)
      requires 2 <= diskSize < 0x1_0000_0000
      ensures Valid() && fresh(directory) && numBlocks == diskSize / 2
      ensures directory[..] == Listing([]) && (diskSize >= 6 ==> DiskOk(directory[..], numBlocks))
    {
      directory := new Entry[ENTRIES](_ => Entry("", 0, 0, 0));
      numBlocks := diskSize / 2;
    }

    /** The slot of the live file with this name; the search ends at the terminator. */
    method FindFile(filename: string) returns (slot: Option<nat>)
      requires Valid()
      ensures slot.Some? ==> Holds(directory[..], filename, slot.value)
      ensures slot.None? ==> forall i :: !Holds(directory[..], filename, i)
    {
      var tint := 0;
      while tint < ENTRIES
        invariant tint <= ENTRIES && tint <= UsedCount(directory[..])
        invariant forall i: nat :: i < tint ==> !Holds(directory[..], filename, i)
      {
        UsedReached(directory[..], tint);
        if directory[tint].IsEnd() {
          return None;
        } else if !directory[tint].IsDeleted() && directory[tint].name == filename {
          return Some(tint);
        }
        tint := tint + 1;
      }
      slot := None;
    }

    /** The two passes over a copy of the directory: how many entries are used, and the first slot
        to put a new one in. */
    method CountEntries() returns (numUsed: nat, firstFree: Option<nat>)
      requires Valid()
      ensures numUsed == NumUsed(directory[..]) && firstFree == FirstFree(directory[..])
    {
      ghost var d := directory[..];
      numUsed, firstFree := 0, None;
      var tint := 0;
      while tint < ENTRIES
        invariant tint <= ENTRIES && tint <= UsedCount(d) && numUsed == 0
        invariant firstFree.None? ==> forall i :: 0 <= i < tint ==> d[i].IsLive()
        invariant firstFree.Some? ==> firstFree.value < tint && !d[firstFree.value].IsLive()
        invariant firstFree.Some? ==> forall i :: 0 <= i < firstFree.value ==> d[i].IsLive()
      {
        UsedReached(d, tint);
        if directory[tint].IsEnd() {
          numUsed := tint;
          if firstFree.None? {
            firstFree := Some(tint);
          }
          FirstFreeIs(d, firstFree);
          return;
        } else if directory[tint].IsDeleted() {
          if firstFree.None? {
            firstFree := Some(tint);
          }
        }
        tint := tint + 1;
      }
      FirstFreeIs(d, firstFree);
    }

    /** The scan for a gap over the sorted copy; 0 if there is none. */
    method FindGap(copy: seq<Entry>, blocks: nat) returns (start: int)
      ensures start == Scan(copy, 0, 1, numBlocks, blocks)
    {
      start := 0;
      var prevFileEnd: int := 1;
      for tint := 0 to |copy| + 1
        invariant start == 0
        invariant Scan(copy, 0, 1, numBlocks, blocks) ==
                    if tint <= |copy| then Scan(copy, tint, prevFileEnd, numBlocks, blocks) else 0
      {
        var thisFileStart: int :=
          if tint == |copy| || copy[tint].IsDeleted() then (numBlocks - 1) % WORD else copy[tint].start;
        if (thisFileStart - prevFileEnd) % WORD >= blocks {
          return prevFileEnd;
        }
        if tint < |copy| {
          prevFileEnd := (copy[tint].start + copy[tint].reserved) % WORD;
        }
      }
    }

    /** Write the new entry and, if it took the terminator's place, the terminator behind it. */
    method AddEntry(slot: nat, numUsed: nat, filename: string, start: nat, blocks: nat)
      requires Valid() && slot < ENTRIES && numUsed == NumUsed(directory[..])
      modifies directory
      ensures directory[..] == After(old(directory[..]), slot, filename, start, blocks)
    {
      directory[slot] := Entry(filename, start, blocks, 0);
      if slot == numUsed && numUsed + 1 < ENTRIES {
        directory[numUsed + 1] := directory[numUsed + 1].(name := "");
      }
    }

    /** Reserve maxsize MiB for a new file. `order` is how the C library's sort arranges the used
        entries. */
    method Create(filename: string, maxsize: nat, order: seq<nat>) returns (r: Outcome)
      requires Valid() && SortedBy(directory[..], NumUsed(directory[..]), order)
      modifies directory
      ensures var d := old(directory[..]); var n := BlocksFor(maxsize);
              && (r == Exists <==> exists i :: Holds(d, filename, i))
              && (r != Exists ==> (r == NoSlot <==> FirstFree(d).None?))
              && var start := Scan(Arranged(d, order), 0, 1, numBlocks, n);
                 if r.Created? then
                   FirstFree(d).Some? && r.start == start != 0 && directory[..] == After(d, FirstFree(d).value, filename, start, n)
                 else directory[..] == d && (r == NoRoom ==> start == 0)
    {
      var size := if maxsize % 2 != 0 then (maxsize + 1) % WORD else maxsize;
      var found := FindFile(filename);
      if found.Some? {
        return Exists;
      }
      var numUsed, firstFree := CountEntries();
      if firstFree.None? {
        return NoSlot;
      }
      var copy := Arranged(directory[..], order);
      var start := FindGap(copy, size / 2);
      ScanNatural(copy, 0, 1, numBlocks, size / 2);
      if start == 0 {
        return NoRoom;
      }
      AddEntry(firstFree.value, numUsed, filename, start, size / 2);
      r := Created(start);
    }

    /** Mark a file's entry as deleted; false if there is no such file. */
    method Delete(filename: string) returns (found: bool)
      requires Valid()
      modifies directory
      ensures found <==> exists i :: Holds(old(directory[..]), filename, i)
      ensures !found ==> directory[..] == old(directory[..])
      ensures found ==> exists i :: Holds(old(directory[..]), filename, i) && directory[..] == Deleted(old(directory[..]), i)
    {
      var slot := FindFile(filename);
      if slot.None? {
        return false;
      }
      ghost var d := directory[..];
      directory[slot.value] := directory[slot.value].(name := directory[slot.value].name[0 := DELETED]);
      assert Holds(d, filename, slot.value) && directory[..] == Deleted(d, slot.value);
      found := true;
    }
  }

  lemma UsedReached(d: seq<Entry>, i: nat)
    requires i < |d| && i <= UsedCount(d)
    ensures d[i].IsEnd() <==> i == UsedCount(d)
  {
  }

  lemma {:induction false} FirstFreeIs(d: seq<Entry>, r: Option<nat>)
    requires r.Some? ==> r.value < |d| && !d[r.value].IsLive() && forall i :: 0 <= i < r.value ==> d[i].IsLive()
    requires r.None? ==> forall i :: 0 <= i < |d| ==> d[i].IsLive()
    ensures FirstFree(d) == r
  {
  }

  lemma {:induction false} ScanNatural(s: seq<Entry>, i: nat, prev: int, numBlocks: nat, blocks: nat)
    requires i <= |s| && prev >= 0
    ensures Scan(s, i, prev, numBlocks, blocks) >= 0
    decreases |s| - i
  {
    if i < |s| {
      ScanNatural(s, i + 1, s[i].End() % WORD, numBlocks, blocks);
    }
  }
}
