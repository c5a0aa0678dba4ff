/** Which power-of-two requests to the slab heap are aligned to their own size. */
module SlabAlignment {
  import opened Common
  import opened PageRuns
  import opened SlabSizes
  import opened SlabZones
  import opened SlabState
  import opened SlabSteps
  import opened SlabPlaces

  lemma {:induction false} SmallPowers(n: nat)
    requires PowerOfTwo(n) && n <= PAGE
    ensures n in {1, 2, 4, 8, 16, 32, 64, 128, 256, 512, 1024, 2048, 4096}
  {
    if n > 1 { SmallPowers(n / 2); }
  }

  /** A power of two is its own chunk size, but for the least ones, and divides a page. */
  lemma PowerClass(n: nat)
    requires PowerOfTwo(n) && n <= PAGE
    ensures var c := ZoneIndex(n).1; c == (if n < 8 then 8 else n) && PowerOfTwo(c) && c % n == 0 && PAGE % c == 0
  {
    SmallPowers(n);
    assert PowerOfTwo(8) by { assert PowerOfTwo(1) && PowerOfTwo(2) && PowerOfTwo(4); }
  }

  /** A multiple of a multiple. */
  lemma Divides(a: nat, b: nat, c: nat)
    requires b > 0 && c > 0 && a % b == 0 && b % c == 0
    ensures a % c == 0
  {
    var k, m := a / b, b / c;
    assert a == (k * m) * c by { assert a == k * b && b == m * c; }
    Multiple(k * m, c);
  }

  lemma SumDivides(a: nat, b: nat, c: nat)
    requires c > 0 && a % c == 0 && b % c == 0
    ensures (a + b) % c == 0
  {
    AddMultiple(a, b / c, c);
    assert b == b / c * c;
  }

  /** The chunk that a zone gives is one of its chunks. */
  lemma GivesChunk(p: nat, z: Zone, zonePages: nat) returns (i: nat)
    requires ZoneRight(p, z, zonePages) && z.nfree > 0 && (z.uindex + 1 == z.nmax ==> z.free != [])
    ensures Take(p, z).1 == ChunkAt(p, z, i)
  {
    if z.uindex + 1 != z.nmax {
      i := z.uindex + 1;
    } else {
      assert HandedOut(p, z, z.free[0]);
      i :| i < z.uindex + 1 && z.free[0] == ChunkAt(p, z, i);
    }
  }

  /** Every chunk of a size that divides a page is aligned to that size. */
  lemma ChunkAligned(start: nat, p: nat, z: Zone, i: nat)
    requires start % PAGE == 0 && z.chunkSize > 0 && PowerOfTwo(z.chunkSize) && z.offset == Offset(z.chunkSize)
    requires PAGE % z.chunkSize == 0
    ensures (start + ChunkAt(p, z, i)) % z.chunkSize == 0
  {
    Multiple(p, PAGE);
    Divides(p * PAGE, PAGE, z.chunkSize);
    Divides(start, PAGE, z.chunkSize);
    PowersAligned(p, z, i);
    SumDivides(start, ChunkAt(p, z, i), z.chunkSize);
  }

  /** Powers of two up to a page are aligned, whatever the heap has been through. */
  lemma UpToAPage(s: State, runs: seq<Run>, start: nat, size: nat)
    requires Valid(s) && s.zonePages in {8, 16, 32} && start % PAGE == 0 && PowerOfTwo(size) && size <= PAGE
    requires Found(s, runs, size).Some?
    ensures (start + Found(s, runs, size).value) % size == 0
  {
    hide PowerOfTwo, ZoneRight, ZoneIndex, Offset, PagesFound;
    PowerClass(size);
    ZoneIndexChunk(size);
    var (i, c) := ZoneIndex(size);
    var found := Found(s, runs, size).value;
    if s.byIndex[i] != [] {
      var p := s.byIndex[i][0];
      FirstListed(s, i);
      TakeReady(s, p);
      ZoneFacts(p, s.zones[p], s.zonePages);
      var k := GivesChunk(p, s.zones[p], s.zonePages);
      ChunkSizeOf(p, s.zones[p], s.zonePages);
      ChunkAligned(start, p, s.zones[p], k);
    } else {
      NewZoneIndex(i, s.zonePages);
      ChunkAligned(start, ZoneFound(s, runs).value, NewZone(i, s.zonePages), 0);
    }
    Divides(start + found, c, size);
  }

  lemma ChunkSizeOf(p: nat, z: Zone, zonePages: nat)
    requires ZoneRight(p, z, zonePages)
    ensures z.chunkSize == ChunkOf(z.zoneIndex) > 0 && z.offset == Offset(z.chunkSize)
  {}

  // ---- A fresh heap ----

  /** The zone size of a region, in pages. */
  function ZonePages(npages: nat): nat {
    if npages <= 16384 then 8 else if npages <= 32768 then 16 else 32
  }

  /** The pages of the usage table, of four bytes a page. */
  function TablePages(npages: nat): (t: nat)
    ensures npages > 0 ==> 0 < t <= npages
  {
    RoundUp(4 * npages, PAGE) / PAGE
  }

  ghost function Fresh(npages: nat): State {
    State(ZonePages(npages), map[], seq(NZONES, _ => []), [], map[], seq(npages, _ => Usage(Unused, 0)),
          map[0 := TablePages(npages)], 0)
  }

  ghost function FreshRuns(npages: nat): seq<Run> {
    var t := TablePages(npages);
    if t < npages then [Run(t, npages - t)] else []
  }

  lemma FreshWhole(npages: nat)
    requires npages > 0
    ensures Whole(Fresh(npages), FreshRuns(npages))
  {
    var s, t := Fresh(npages), TablePages(npages);
    assert forall i: nat :: i < NZONES ==> ListAt(s, i);
    forall p: nat | p < npages && !Free(FreshRuns(npages), p) ensures InBlock(s.blocks, p) {
      assert 0 in s.blocks;
      if p >= t { FreeOne(Run(t, npages - t), p); }
    }
  }

  // ---- The promise, and how far it is kept ----

  /** A region in the address space, from a page boundary on. */
  predicate Region(start: nat, npages: nat) {
    start > 0 && start % PAGE == 0 && start + npages * PAGE <= WORD
  }

  /** On this heap, at this address, a request of this size that gets anything gets an aligned address. */
  ghost predicate AlignedIn(s: State, runs: seq<Run>, start: nat, size: nat)
    requires size > 0
  {
    Whole(s, runs) && Region(start, |s.usage|) && Found(s, runs, size).Some? ==>
      (start + Found(s, runs, size).value) % size == 0
  }

  /** The source promises alignment for all powers of two: it is kept up to a page and for no size above. */
  lemma AlignedExactly(size: nat)
    requires PowerOfTwo(size) && size < WORD
    ensures (forall s, runs, start :: AlignedIn(s, runs, start, size)) <==> size <= PAGE
  {
    hide AlignedIn;
    if size <= PAGE {
      forall s, runs, start: nat ensures AlignedIn(s, runs, start, size) { KeptIn(s, runs, start, size); }
    } else {
      BrokenIn(size);
    }
  }

  lemma KeptIn(s: State, runs: seq<Run>, start: nat, size: nat)
    requires PowerOfTwo(size) && size <= PAGE
    ensures AlignedIn(s, runs, start, size)
  {
    hide Valid, Found, PowerOfTwo;
    if Whole(s, runs) && Region(start, |s.usage|) && Found(s, runs, size).Some? { UpToAPage(s, runs, start, size); }
  }

  lemma BrokenIn(size: nat)
    requires PowerOfTwo(size) && PAGE < size < WORD
    ensures !AlignedIn(Fresh(size / PAGE + 1024), FreshRuns(size / PAGE + 1024), PAGE, size)
  {
    hide Whole, Found, PowerOfTwo, FreshRuns, Fresh, Region;
    LargeMisaligned(size);
    SizesOf(size / PAGE + 1024);
  }

  lemma {:induction false} PowersOfPages(size: nat)
    requires PowerOfTwo(size) && size > PAGE
    ensures size % PAGE == 0 && size / PAGE >= 2 && (size / PAGE == 2 || size / PAGE % 4 == 0)
  {
    var half := size / 2;
    if half > PAGE {
      PowersOfPages(half);
      PagesTwice(half / PAGE);
      assert half == half / PAGE * PAGE;
    } else {
      SmallPowers(half);
    }
  }

  lemma PagesTwice(k: nat)
    ensures 2 * (k * PAGE) % PAGE == 0 && 2 * (k * PAGE) / PAGE == 2 * k
    ensures k % 4 == 0 || k == 2 ==> 2 * k % 4 == 0
  {}

  /** On a fresh heap with room for it, every larger power of two is misaligned: the table lies in front of it. */
  lemma LargeMisaligned(size: nat)
    requires PowerOfTwo(size) && PAGE < size < WORD
    ensures var n := size / PAGE + 1024;
      Whole(Fresh(n), FreshRuns(n)) && Region(PAGE, n)
      && Found(Fresh(n), FreshRuns(n), size) == Some(TablePages(n) * PAGE) && (PAGE + TablePages(n) * PAGE) % size != 0
  {
    hide Valid, Whole, Found, Fresh, FreshRuns, PowerOfTwo;
    PowersOfPages(size);
    var k := size / PAGE;
    TopPower(size);
    FreshWhole(k + 1024);
    FreshLarge(k);
    BetweenMultiples(k);
  }

  lemma TopPower(size: nat)
    requires PowerOfTwo(size) && size < WORD
    ensures 2 * size <= WORD
  {
    hide PowerOfTwo;
    WordIsPower();
    NextPower(size, WORD);
  }

  lemma WordIsPower()
    ensures PowerOfTwo(WORD)
  {
    hide PowerOfTwo;
    OneIsPower();
    EightTimes(1);
    EightTimes(0x100);
    EightTimes(0x1_0000);
    EightTimes(0x100_0000);
  }

  lemma OneIsPower()
    ensures PowerOfTwo(1)
  {}

  lemma Doubled(n: nat)
    requires PowerOfTwo(n)
    ensures PowerOfTwo(2 * n)
  {}

  lemma EightTimes(n: nat)
    requires PowerOfTwo(n)
    ensures PowerOfTwo(0x100 * n)
  {
    hide PowerOfTwo;
    Doubled(n);
    Doubled(2 * n);
    Doubled(4 * n);
    Doubled(8 * n);
    Doubled(0x10 * n);
    Doubled(0x20 * n);
    Doubled(0x40 * n);
    Doubled(0x80 * n);
  }

  lemma BetweenMultiples(k: nat)
    requires 2 <= k <= 0x8_0000 && (k == 2 || k % 4 == 0)
    ensures (PAGE + TablePages(k + 1024) * PAGE) % (k * PAGE) != 0
  {
    hide TablePages;
    FirstPages(k);
    if k > 2 { NoMultiple(PAGE + TablePages(k + 1024) * PAGE, k * PAGE); }
  }

  lemma NoMultiple(a: nat, b: nat)
    requires 0 < a < b
    ensures a % b != 0
  {}

  lemma FreshLarge(k: nat)
    requires 2 <= k <= 0x8_0000 && (k == 2 || k % 4 == 0) && Valid(Fresh(k + 1024))
    ensures Found(Fresh(k + 1024), FreshRuns(k + 1024), k * PAGE) == Some(TablePages(k + 1024) * PAGE)
  {
    hide Valid, SmallFound, PagesFound, FreshRuns, TablePages, ZoneIndex;
    SizesOf(k + 1024);
    FirstPages(k);
    PagesOf(k);
    hide RoundUp;
  }

  lemma PagesOf(k: nat)
    requires k * PAGE < WORD
    ensures RoundUp(k * PAGE, PAGE) % WORD / PAGE == k
  {
    hide RoundUp;
    assert RoundUp(k * PAGE, PAGE) == k * PAGE;
  }

  lemma SizesOf(n: nat)
    ensures |Fresh(n).usage| == n && Fresh(n).zonePages in {8, 16, 32} && (n <= 1026 ==> Fresh(n).zonePages == 8)
  {}

  /** The table of a heap of `k + 1024` pages, and the first block of `k` pages behind it. */
  lemma FirstPages(k: nat)
    requires 2 <= k <= 0x8_0000
    ensures TablePages(k + 1024) == (k + 2047) / 1024
      && PagesFound(FreshRuns(k + 1024), k) == Some(TablePages(k + 1024))
  {
    FirstFound(FreshRuns(k + 1024), k, 0);
  }

  lemma {:induction false} NextPower(n: nat, m: nat)
    requires PowerOfTwo(n) && PowerOfTwo(m) && n < m
    ensures 2 * n <= m
  {
    if n > 1 { NextPower(n / 2, m / 2); }
  }

  /** An 8192-byte chunk is misaligned too: with larger zones such a request is below the limit. */
  lemma ChunkMisaligned()
    ensures var s, runs, start := Fresh(16385), FreshRuns(16385), 2 * PAGE;
      && Whole(s, runs) && Region(start, 16385) && 8192 < Limit(s.zonePages)
      && Found(s, runs, 8192) == Some(17 * PAGE + 8192) && (start + 17 * PAGE + 8192) % 8192 == PAGE
  {
    hide Valid, PowerOfTwo, TablePages, SmallFound, Canonical, Partition;
    FreshWhole(16385);
    FreshChunk();
  }

  lemma FreshChunk()
    requires Valid(Fresh(16385))
    ensures SmallFound(Fresh(16385), FreshRuns(16385), 63) == Some(17 * PAGE + 8192)
  {
    hide Valid;
    FirstFound(FreshRuns(16385), 16, 0);
    assert PowerOfTwo(8192);
  }
}
