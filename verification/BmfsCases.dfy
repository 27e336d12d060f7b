/** Runs from a formatted disk that reach the states in which file creation goes wrong. */
module BmfsCases {
  import opened Options
  import opened BmfsDirectory

  ghost predicate AllLive(es: seq<Entry>) { forall i :: 0 <= i < |es| ==> es[i].IsLive() }

  lemma ListingUsed(es: seq<Entry>)
    requires |es| <= ENTRIES && AllLive(es)
    ensures UsedCount(Listing(es)) == |es|
    ensures FirstFree(Listing(es)) == if |es| < ENTRIES then Some(|es|) else None
  {
    UsedIs(Listing(es), |es|);
    FirstFreeIs(Listing(es), if |es| < ENTRIES then Some(|es|) else None);
  }

  /** The order of entries that are sorted already. */
  function InOrder(n: nat): seq<nat> { seq(n, i => i) }

  lemma InOrderSorts(es: seq<Entry>)
    requires |es| < ENTRIES && AllLive(es) && forall i, j :: 0 <= i < j < |es| ==> es[i].start <= es[j].start
    ensures SortedBy(Listing(es), NumUsed(Listing(es)), InOrder(|es|)) && Arranged(Listing(es), InOrder(|es|)) == es
  {
    ListingUsed(es);
    forall a | 0 <= a < |es| ensures a in InOrder(|es|) {
      assert InOrder(|es|)[a] == a;
    }
  }

  /** One more file at the end of the list. */
  lemma MakeAppends(es: seq<Entry>, name: string, blocks: nat, numBlocks: nat, start: nat)
    requires |es| < ENTRIES - 1 && AllLive(es) && forall i, j :: 0 <= i < j < |es| ==> es[i].start <= es[j].start
    requires name != "" && name[0] != DELETED && blocks > 0
    requires Scan(es, 0, 1, numBlocks, blocks) == start > 0 && FreeAt(Listing(es), numBlocks, start, blocks)
    ensures Sound(Listing(es), Make(name, blocks, InOrder(|es|)), numBlocks)
    ensures Next(Listing(es), Make(name, blocks, InOrder(|es|)), numBlocks) == Listing(es + [Entry(name, start, blocks, 0)])
  {
    ListingUsed(es);
    InOrderSorts(es);
    assert After(Listing(es), |es|, name, start, blocks) == Listing(es + [Entry(name, start, blocks, 0)]);
  }

  lemma {:induction false} ReachesAppend(d: seq<Entry>, es: seq<Step>, numBlocks: nat, r: seq<Entry>, e: Step)
    requires Reaches(d, es, numBlocks, r) && Sound(r, e, numBlocks)
    ensures Reaches(d, es + [e], numBlocks, Next(r, e, numBlocks))
    decreases |es|
  {
    if es == [] {
      assert es + [e] == [e] && [e][1..] == [];
    } else {
      assert (es + [e])[0] == es[0] && (es + [e])[1..] == es[1..] + [e];
      ReachesAppend(Next(d, es[0], numBlocks), es[1..], numBlocks, r, e);
    }
  }

  /** One more step of a run from a formatted disk. */
  lemma Onwards(es: seq<Step>, d: seq<Entry>, e: Step, r: seq<Entry>, numBlocks: nat) returns (more: seq<Step>)
    requires Reaches(Listing([]), es, numBlocks, d) && Sound(d, e, numBlocks) && Next(d, e, numBlocks) == r
    ensures Reaches(Listing([]), more, numBlocks, r)
  {
    more := es + [e];
    ReachesAppend(Listing([]), es, numBlocks, d, e);
  }

  lemma Made(es: seq<Step>, files: seq<Entry>, name: string, blocks: nat, numBlocks: nat, start: nat) returns (more: seq<Step>)
    requires |files| < ENTRIES - 1 && Reaches(Listing([]), es, numBlocks, Listing(files))
    requires AllLive(files) && forall i, j :: 0 <= i < j < |files| ==> files[i].start <= files[j].start
    requires name != "" && name[0] != DELETED && blocks > 0
    requires Scan(files, 0, 1, numBlocks, blocks) == start > 0 && FreeAt(Listing(files), numBlocks, start, blocks)
    ensures Reaches(Listing([]), more, numBlocks, Listing(files + [Entry(name, start, blocks, 0)]))
  {
    MakeAppends(files, name, blocks, numBlocks, start);
    more := Onwards(es, Listing(files), Make(name, blocks, InOrder(|files|)), Listing(files + [Entry(name, start, blocks, 0)]), numBlocks);
  }

  lemma DropStep(d: seq<Entry>, slot: nat, r: seq<Entry>, numBlocks: nat)
    requires slot < UsedCount(d) && d[slot].IsLive() && Deleted(d, slot) == r
    ensures Sound(d, Drop(slot), numBlocks) && Next(d, Drop(slot), numBlocks) == r
  {
  }

  // ---------------------------------------------------------------- a deleted entry misleads

  const A: Entry := Entry("A", 1, 2, 0)
  const B: Entry := Entry("B", 3, 3, 0)
  const C: Entry := Entry("C", 6, 3, 0)

  lemma ThreeFit()
    ensures Scan([], 0, 1, 10, 2) == 1 && Scan([A], 0, 1, 10, 3) == 3 && Scan([A, B], 0, 1, 10, 3) == 6
  {
    assert Scan([A], 0, 1, 10, 3) == Scan([A], 1, 3, 10, 3);
    assert Scan([A, B], 0, 1, 10, 3) == Scan([A, B], 1, 3, 10, 3) == Scan([A, B], 2, 6, 10, 3);
  }

  lemma ThreePlacesFree()
    ensures FreeAt(Listing([]), 10, 1, 2) && FreeAt(Listing([A]), 10, 3, 3) && FreeAt(Listing([A, B]), 10, 6, 3)
  {
    ListingUsed([]);
    ListingUsed([A]);
    ListingUsed([A, B]);
  }

  lemma OneFile() returns (es: seq<Step>)
    ensures Reaches(Listing([]), es, 10, Listing([A]))
  {
    ThreeFit();
    ThreePlacesFree();
    es := Made([], [], "A", 2, 10, 1);
    assert [] + [A] == [A];
  }

  lemma TwoFiles() returns (es: seq<Step>)
    ensures Reaches(Listing([]), es, 10, Listing([A, B]))
  {
    es := OneFile();
    ThreeFit();
    ThreePlacesFree();
    es := Made(es, [A], "B", 3, 10, 3);
    assert [A] + [B] == [A, B];
  }

  lemma ThreeFiles() returns (es: seq<Step>)
    ensures Reaches(Listing([]), es, 10, Listing([A, B, C]))
  {
    es := TwoFiles();
    ThreeFit();
    ThreePlacesFree();
    es := Made(es, [A, B], "C", 3, 10, 6);
    assert [A, B] + [C] == [A, B, C];
  }

  const GONE: Entry := Entry([DELETED], 1, 2, 0)

  lemma DropsFirst()
    ensures UsedCount(Listing([A, B, C])) == 3 && Deleted(Listing([A, B, C]), 0) == Listing([GONE, B, C])
  {
    ListingUsed([A, B, C]);
    assert "A"[0 := DELETED] == [DELETED];
  }

  /** Three files fill a disk of ten blocks; the first is deleted. */
  lemma FirstFileDropped() returns (es: seq<Step>)
    ensures Reaches(Listing([]), es, 10, Listing([GONE, B, C]))
  {
    es := ThreeFiles();
    DropsFirst();
    var d, r := Listing([A, B, C]), Listing([GONE, B, C]);
    DropStep(d, 0, r, 10);
    es := Onwards(es, d, Drop(0), r, 10);
  }

  lemma DroppedListing()
    ensures var d := Listing([GONE, B, C]);
            && UsedCount(d) == 3 && FirstFree(d) == Some(0)
            && SortedBy(d, 3, [1, 2, 0]) && Arranged(d, [1, 2, 0]) == [B, C, GONE]
  {
    UsedIs(Listing([GONE, B, C]), 3);
    FirstFreeIs(Listing([GONE, B, C]), Some(0));
    forall a | 0 <= a < 3 ensures a in [1, 2, 0] {
      assert [1, 2, 0][if a == 0 then 2 else a - 1] == a;
    }
  }

  lemma StaleEndTaken()
    ensures Scan([B, C, GONE], 0, 1, 10, 4) == 3
  {
    var s := [B, C, GONE];
    assert Scan(s, 0, 1, 10, 4) == Scan(s, 1, 6, 10, 4) == Scan(s, 2, 9, 10, 4) == Scan(s, 3, 3, 10, 4);
  }

  /** A request for four blocks then fits nowhere, and is given the blocks from 3 on, where the
      second file starts: the deleted entry's end is taken for the end of the files. */
  lemma DeletedEntryMisleads() returns (es: seq<Step>)
    ensures var d := Listing([GONE, B, C]);
            && Reaches(Listing([]), es, 10, d) && DiskOk(d, 10)
            && SortedBy(d, UsedCount(d), [1, 2, 0]) && Scan(Arranged(d, [1, 2, 0]), 0, 1, 10, 4) == B.start
            && !ExtentsOk(After(d, 0, "D", B.start, 4), 10)
  {
    var d := Listing([GONE, B, C]);
    es := FirstFileDropped();
    ListingUsed([]);
    FilesNeverOverlap(Listing([]), es, 10, d);
    DroppedListing();
    StaleEndTaken();
    assert d[1] == B && !Clear(d[1], 3, 4);
    CreationKeepsExactly(d, 10, 0, "D", 3, 4);
  }

  // ---------------------------------------------------------------- a directory without terminator

  function Nth(i: nat): Entry
    requires i < ENTRIES
  {
    Entry([(65 + i) as char], 1 + i, 1, 0)
  }

  /** n files of one block each, one behind the other. */
  function Files(n: nat): (es: seq<Entry>)
    requires n <= ENTRIES
    ensures |es| == n && AllLive(es) && forall i :: 0 <= i < n ==> es[i] == Nth(i)
  {
    seq(n, i requires 0 <= i < n => Nth(i))
  }

  lemma PlaceTaken(n: nat, numBlocks: nat, r: nat)
    requires 1 <= r <= n < ENTRIES
    ensures !FreeAt(Listing(Files(n)), numBlocks, r, 1)
  {
    ListingUsed(Files(n));
    assert Listing(Files(n))[r - 1] == Nth(r - 1) && !Clear(Listing(Files(n))[r - 1], r, 1);
  }

  /** The next file of one block goes right behind the others. */
  lemma NextPlace(n: nat, numBlocks: nat)
    requires n < ENTRIES && ENTRIES + 2 <= numBlocks < 0x8000_0000 && DiskOk(Listing(Files(n)), numBlocks)
    ensures FreeAt(Listing(Files(n)), numBlocks, n + 1, 1) && Scan(Files(n), 0, 1, numBlocks, 1) == n + 1
  {
    var d := Listing(Files(n));
    ListingUsed(Files(n));
    InOrderSorts(Files(n));
    FirstFit(d, InOrder(n), numBlocks, 1);
    assert FreeAt(d, numBlocks, n + 1, 1);
    var r := Scan(Files(n), 0, 1, numBlocks, 1);
    if 1 <= r <= n {
      PlaceTaken(n, numBlocks, r);
    }
  }

  lemma {:induction false} FilesMade(n: nat, numBlocks: nat) returns (es: seq<Step>)
    requires n < ENTRIES && ENTRIES + 2 <= numBlocks < 0x8000_0000
    ensures Reaches(Listing([]), es, numBlocks, Listing(Files(n))) && DiskOk(Listing(Files(n)), numBlocks)
  {
    ListingUsed([]);
    if n == 0 {
      es := [];
      assert Files(0) == [];
    } else {
      es := FilesMade(n - 1, numBlocks);
      es := OneMoreFile(n - 1, numBlocks, es);
    }
  }

  lemma OneMoreFile(n: nat, numBlocks: nat, es: seq<Step>) returns (more: seq<Step>)
    requires n < ENTRIES - 1 && ENTRIES + 2 <= numBlocks < 0x8000_0000
    requires Reaches(Listing([]), es, numBlocks, Listing(Files(n))) && DiskOk(Listing(Files(n)), numBlocks)
    ensures Reaches(Listing([]), more, numBlocks, Listing(Files(n + 1))) && DiskOk(Listing(Files(n + 1)), numBlocks)
  {
    NextPlace(n, numBlocks);
    more := Made(es, Files(n), Nth(n).name, 1, numBlocks, n + 1);
    assert Files(n) + [Nth(n)] == Files(n + 1);
    ListingUsed([]);
    FilesNeverOverlap(Listing([]), more, numBlocks, Listing(Files(n + 1)));
  }

  /** The last entry is taken by a creation in a sound directory, and the terminator is gone. */
  lemma LastEntryTaken(numBlocks: nat) returns (es: seq<Step>)
    requires ENTRIES + 2 <= numBlocks < 0x8000_0000
    ensures var d := Listing(Files(ENTRIES - 1)); var e := Nth(ENTRIES - 1);
            && Reaches(Listing([]), es, numBlocks, d) && DiskOk(d, numBlocks)
            && FirstFree(d) == Some(ENTRIES - 1) && Scan(Files(ENTRIES - 1), 0, 1, numBlocks, 1) == ENTRIES
            && After(d, ENTRIES - 1, e.name, ENTRIES, 1) == Listing(Files(ENTRIES)) && !Terminated(Listing(Files(ENTRIES)))
            && ExtentsOk(Listing(Files(ENTRIES)), numBlocks)
  {
    var d := Listing(Files(ENTRIES - 1));
    es := FilesMade(ENTRIES - 1, numBlocks);
    NextPlace(ENTRIES - 1, numBlocks);
    ListingUsed(Files(ENTRIES - 1));
    ListingUsed(Files(ENTRIES));
    CreationKeepsExactly(d, numBlocks, ENTRIES - 1, Nth(ENTRIES - 1).name, ENTRIES, 1);
    assert After(d, ENTRIES - 1, Nth(ENTRIES - 1).name, ENTRIES, 1) == Listing(Files(ENTRIES));
  }

  /** After deleting any file but the first from there, the next file is put onto the first one;
      after deleting the first, every other file disappears. */
  lemma FullDirectoryGoesWrong(numBlocks: nat, slot: nat)
    requires ENTRIES + 2 <= numBlocks < 0x8000_0000 && slot < ENTRIES
    ensures var d := Deleted(Listing(Files(ENTRIES)), slot);
            && ExtentsOk(d, numBlocks) && FirstFree(d) == Some(slot) && NumUsed(d) == 0
            && Scan(Arranged(d, []), 0, 1, numBlocks, 1) == 1
            && var r := After(d, slot, "D", 1, 1);
               if slot == 0 then UsedCount(r) == 1 else UsedCount(r) == ENTRIES && !ExtentsOk(r, numBlocks)
  {
    var _ := LastEntryTaken(numBlocks);
    var f := Listing(Files(ENTRIES));
    var d := Deleted(f, slot);
    ListingUsed(Files(ENTRIES));
    DroppedExtents(f, numBlocks, slot);
    FirstFreeIs(d, Some(slot));
    FullCreationIsSafeExactly(d, numBlocks, slot, "D", 1);
    FullDirectoryUsed(d, slot, "D", 1);
    if slot > 0 {
      assert d[0] == Nth(0) && !Clear(d[0], 1, 1);
    }
  }

  lemma DroppedExtents(f: seq<Entry>, numBlocks: nat, slot: nat)
    requires ExtentsOk(f, numBlocks) && UsedCount(f) == |f| && slot < |f| && f[slot].IsLive()
    ensures UsedCount(Deleted(f, slot)) == |f| && ExtentsOk(Deleted(f, slot), numBlocks)
  {
    var d := Deleted(f, slot);
    UsedIs(d, |f|);
    forall i | 0 <= i < UsedCount(d) ensures InRange(d[i], numBlocks) {
      assert InRange(f[i], numBlocks);
    }
    forall i, j | 0 <= i < UsedCount(d) && 0 <= j < UsedCount(d) && i != j && d[j].IsLive()
      ensures Clear(d[i], d[j].start, d[j].reserved)
    {
      assert Clear(f[i], f[j].start, f[j].reserved);
    }
  }
}
