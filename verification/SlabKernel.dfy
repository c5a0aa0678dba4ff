/** The slab allocator: zones of equal chunks for small requests, whole pages for large ones. */
module SlabKernel {
  import opened Common
  import opened Lists
  import opened PageKernel
  import opened PageRuns
  import opened SlabSizes
  import opened SlabZones
  import opened SlabState
  import opened SlabSteps
  import opened SlabPlaces
  import opened SlabAlignment

  const RELEASE_THRESH := 2

  class SlabHeap {
    const heap: PageHeap

    /** The address of page zero; pointers are counted from here. */
    const heapStart: nat
    const zonePages: nat
    const table: nat
    var zones: map<nat, Zone>
    var zoneArray: seq<seq<nat>>
    var zoneFree: seq<nat>
    var zoneFreeCnt: nat
    var usage: seq<Usage>
    var used: nat
    var max: nat
    ghost var large: map<nat, nat>

    /** `rt_slab_init`, for a region of whole pages. */
    constructor (start: nat, npages: nat)
      requires npages > 0 && start % PAGE == 0
      ensures heapStart == start && Snap() == Fresh(npages) && heap.runs == FreshRuns(npages)
      ensures Valid() && fresh(heap) && fresh(heap.pages) && heap.pages.Length == npages
      ensures used == max == 0 && forall q: nat :: !Live(Snap(), q)
    {
      hide SlabState.Valid, BlocksRight, Partition, PageRuns.Free, Canonical, Merged;
      FreshWhole(npages);
      FreshTable(npages);
      var zoneSize := ZoneSize(npages * PAGE);
      var h := new PageHeap(npages);
      TableFits(npages);
      var t := h.PageAlloc(RoundUp(4 * npages, PAGE) / PAGE);
      heapStart, heap, zonePages, table := start, h, zoneSize / PAGE, t.value;
      zones, zoneArray, zoneFree, zoneFreeCnt := map[], seq(NZONES, _ => []), [], 0;
      usage, used, max, large := seq(npages, _ => Usage(Unused, 0)), 0, 0, map[];
      new;
      BlocksOf();
      NothingYet(Snap(), |usage|);
    }

    /** The zone size grows with the region. */
    static method ZoneSize(limsize: nat) returns (zoneSize: nat)
      ensures zoneSize in {32768, 65536, 131072}
        && (limsize % PAGE == 0 ==> zoneSize == ZonePages(limsize / PAGE) * PAGE)
      ensures zoneSize < 131072 ==> 2 * zoneSize >= limsize / 1024
      ensures zoneSize > 32768 ==> zoneSize < limsize / 1024
    {
      zoneSize := 32768;
      while zoneSize < 131072 && 2 * zoneSize < limsize / 1024
        invariant zoneSize in {32768, 65536, 131072} && (zoneSize > 32768 ==> zoneSize < limsize / 1024)
        decreases 131072 - zoneSize
      {
        zoneSize := 2 * zoneSize;
      }
    }

    ghost function Snap(): State
      reads this, heap
    {
      State(zonePages, zones, zoneArray, zoneFree, large, usage, heap.blocks, table)
    }

    ghost predicate Valid()
      reads this, heap, heap.pages
    {
      && Consistent() && zoneFreeCnt <= RELEASE_THRESH && used == InUse(Snap()) && used <= max
    }

    /** Valid while a call is under way. */
    ghost predicate Consistent()
      reads this, heap, heap.pages
    {
      && heap.Valid() && heap.pages.Length == |usage| && SlabState.Valid(Snap()) && zoneFreeCnt == |zoneFree|
      && zonePages in {8, 16, 32} && heapStart % PAGE == 0
    }

    lemma BlocksOf()
      requires heap.Valid() && heap.pages.Length == |usage|
      ensures BlocksRight(Snap())
    {}

    /** The count of bytes in use and its running maximum. */
    method Account(bytes: nat)
      modifies this`used, this`max
      ensures used == old(used) + bytes && max == if used > old(max) then used else old(max)
    {
      used := used + bytes;
      if used > max {
        max := used;
      }
    }

    /** A request of at least the zone limit: whole pages. Rounding up is done in 32 bits. */
    method AllocLarge(size: nat) returns (ptr: Option<nat>)
      requires Valid() && 0 < size < WORD
      modifies this, heap, heap.pages
      ensures Valid()
      ensures ptr == None ==> Snap() == old(Snap()) && used == old(used) && max == old(max)
      ensures ptr.Some? ==> OneMore(old(Snap()), Snap(), ptr.value) && used == old(used) + RoundUp(size, PAGE)
      ensures ptr.Some? ==> LiveIn(Snap(), ptr.value / PAGE, ptr.value) && Extent(Snap(), ptr.value / PAGE) >= size
      ensures ptr.Some? ==> max == if used > old(max) then used else old(max)
      ensures ptr == LargeFound(old(heap.runs), size)
    {
      hide SlabState.Valid, BlocksRight, OneMore, Live, LiveIn, Extent, Partition, InUse, RoundUp, LargeTaken, FirstFit,
        PagesFound, Carved;
      var aligned := RoundUp(size, PAGE) % WORD;
      WholePages(size);
      ghost var s, runs := Snap(), heap.runs;
      var page := heap.PageAlloc(aligned / PAGE);
      FoundAs(runs, aligned / PAGE, page);
      if page == None {
        return None;
      }
      EnterLarge(page.value, aligned / PAGE, s);
      ptr := Some(page.value * PAGE);
    }

    /** Writes down that new pages are a large block. */
    method EnterLarge(p: nat, n: nat, ghost s: State)
      requires heap.Valid() && heap.pages.Length == |usage| && p in heap.blocks && heap.blocks[p] == n
      requires SlabState.Valid(s) && p !in s.blocks && Snap() == s.(blocks := s.blocks[p := n])
      requires zoneFreeCnt == |zoneFree| <= RELEASE_THRESH && zonePages in {8, 16, 32} && heapStart % PAGE == 0
      requires used == InUse(s) && used <= max
      modifies this`usage, this`large, this`used, this`max
      ensures Valid() && OneMore(s, Snap(), p * PAGE) && used == old(used) + n * PAGE
      ensures LiveIn(Snap(), p, p * PAGE) && Extent(Snap(), p) == n * PAGE && p * PAGE / PAGE == p
      ensures max == if used > old(max) then used else old(max)
    {
      hide SlabState.Valid, BlocksRight, OneMore, Live, LiveIn, Extent, Partition, InUse, LargeTaken;
      NewBlock(p);
      usage := usage[p := Usage(Large, n)];
      large := large[p := n];
      BlocksOf();
      LargeTakenIs(s, p, n, Snap());
      TakenNow(s, p, n);
      Account(n * PAGE);
    }

    lemma NewBlock(p: nat)
      requires heap.Valid() && p in heap.blocks
      ensures heap.blocks[p] > 0 && p + heap.blocks[p] <= heap.pages.Length
    {}

    /** The first zone on the list of its index gives a chunk. */
    method TakeChunk(i: nat) returns (ptr: nat)
      requires Valid() && i < NZONES && zoneArray[i] != []
      modifies this
      ensures ptr == ChunkFound(old(Snap()), i)
      ensures Valid() && OneMore(old(Snap()), Snap(), ptr) && used == old(used) + ChunkOf(i)
      ensures max == if used > old(max) then used else old(max)
      ensures LiveIn(Snap(), old(zoneArray)[i][0], ptr) && Extent(Snap(), old(zoneArray)[i][0]) == ChunkOf(i)
      ensures zoneFree == old(zoneFree)
    {
      hide SlabState.Valid, BlocksRight, OneMore, Live, Partition, InUse, Remove, ZoneRight, LiveChunk;
      ghost var s := Snap();
      ListsOf(s);
      FirstListed(s, i);
      var p := zoneArray[i][0];
      var z := zones[p];
      TakenValid(s, p);
      TakenParts(s, p, i);
      ptr := Take(p, z).1;
      z := Take(p, z).0;
      zones := zones[p := z];
      if z.nfree == 0 {
        zoneArray := zoneArray[i := zoneArray[i][1..]];
      }
      assert Snap() == Taken(s, p);
      Account(z.chunkSize);
    }

    /** No zone of this index has chunks: a spare zone, or new pages, become one. */
    method OpenZone(i: nat) returns (ptr: Option<nat>)
      requires Valid() && i < NZONES && zoneArray[i] == [] && 4 * ChunkOf(i) <= zonePages * PAGE
      modifies this, heap, heap.pages
      ensures Valid() && ptr == SmallFound(old(Snap()), old(heap.runs), i)
      ensures ptr == None ==> Snap() == old(Snap()) && used == old(used) && max == old(max)
      ensures ptr.Some? ==> OneMore(old(Snap()), Snap(), ptr.value) && used == old(used) + ChunkOf(i)
      ensures ptr.Some? ==> max == if used > old(max) then used else old(max)
      ensures ptr.Some? ==> exists p: nat :: LiveIn(Snap(), p, ptr.value) && Extent(Snap(), p) == ChunkOf(i)
      ensures old(zoneFree) != [] ==>
        && heap.runs == old(heap.runs) && zoneFree == old(zoneFree)[1..]
        && ptr.Some? && LiveIn(Snap(), old(zoneFree)[0], ptr.value)
    {
      hide SlabState.Valid, BlocksRight, OneMore, Live, Partition, InUse, ZoneRight, LiveChunk, NewZone;
      ghost var start := Snap();
      if zoneFree == [] {
        var ok := SpareZone();
        if !ok {
          return None;
        }
      }
      ghost var s := Snap();
      var z := zoneFree[0];
      zoneFree := zoneFree[1..];
      zoneFreeCnt := zoneFreeCnt - 1;
      var zone := NewZone(i, zonePages);
      ListsOf(s);
      OpenedValid(s, i);
      OpenedParts(s, i);
      zones := zones[z := zone];
      zoneArray := zoneArray[i := [z] + zoneArray[i]];
      assert Snap() == Opened(s, i);
      Account(zone.chunkSize);
      ptr := Some(ChunkAt(z, zone, 0));
      SameThenMore(start, s, Snap(), ptr.value);
    }

    /** Pages from the page allocator, marked as a zone's. */
    method SpareZone() returns (ok: bool)
      requires Valid() && zoneFree == []
      modifies this, heap, heap.pages
      ensures Valid() && used == old(used) && max == old(max) && zoneArray == old(zoneArray)
      ensures !ok ==> Snap() == old(Snap())
      ensures ok <==> PagesFound(old(heap.runs), zonePages).Some?
      ensures ok ==> zoneFree == [PagesFound(old(heap.runs), zonePages).value] && SameLive(old(Snap()), Snap())
    {
      hide SlabState.Valid, BlocksRight, Live, Partition, InUse, FirstFit, PagesFound, Carved;
      ghost var s, runs := Snap(), heap.runs;
      var page := heap.PageAlloc(zonePages);
      FoundAs(runs, zonePages, page);
      if page == None {
        return false;
      }
      var p := page.value;
      NewBlock(p);
      MarkPages(p, Small);
      zoneFree := [p] + zoneFree;
      zoneFreeCnt := zoneFreeCnt + 1;
      BlocksOf();
      SparedValid(s, p);
      assert Snap() == Spared(s, p);
      ok := true;
    }

    /** Writes the usage of the pages of a zone. */
    method MarkPages(p: nat, kind: Kind)
      requires p + zonePages <= |usage|
      modifies this`usage
      ensures usage == PagesMarked(old(usage), p, zonePages, kind)
    {
      for k := 0 to zonePages
        invariant |usage| == |old(usage)|
        invariant forall o :: 0 <= o < |usage| ==>
          usage[o] == if p <= o < p + k then Usage(kind, if kind == Small then o - p else 0) else old(usage)[o]
      {
        usage := usage[p + k := Usage(kind, if kind == Small then k else 0)];
      }
      assert usage == PagesMarked(old(usage), p, zonePages, kind);
    }

    /** `rt_slab_alloc`. */
    method Alloc(size: nat) returns (ptr: Option<nat>)
      requires Valid() && size < WORD
      modifies this, heap, heap.pages
      ensures Valid() && ptr == Found(old(Snap()), old(heap.runs), size)
      ensures ptr == None <==> Refused(old(Snap()), old(heap.runs), size)
      ensures ptr.Some? && PowerOfTwo(size) && size <= PAGE ==> (heapStart + ptr.value) % size == 0
      ensures ptr == None ==> Snap() == old(Snap()) && used == old(used) && max == old(max)
      ensures ptr.Some? ==> OneMore(old(Snap()), Snap(), ptr.value) && used == old(used) + Granted(zonePages, size)
      ensures ptr.Some? ==> max == if used > old(max) then used else old(max)
      ensures ptr.Some? ==> exists p: nat :: LiveIn(Snap(), p, ptr.value) && Extent(Snap(), p) >= size
      ensures 0 < size < Limit(zonePages) && ZoneIndex(size).0 < |old(zoneArray)| ==>
        var listed := old(zoneArray)[ZoneIndex(size).0];
        && (listed != [] ==>
              ptr.Some? && LiveIn(Snap(), listed[0], ptr.value)
              && heap.runs == old(heap.runs) && zoneFree == old(zoneFree))
        && (listed == [] && old(zoneFree) != [] ==>
              ptr.Some? && LiveIn(Snap(), old(zoneFree)[0], ptr.value)
              && heap.runs == old(heap.runs) && zoneFree == old(zoneFree)[1..])
    {
      hide SlabState.Valid, BlocksRight, OneMore, Live, LiveIn, Partition, InUse, ChunkOf, Extent, RoundUp, ZoneIndex;
      RefusedExactly(Snap(), heap.runs, size);
      if size == 0 {
        return None;
      }
      if PowerOfTwo(size) && size <= PAGE && Found(Snap(), heap.runs, size).Some? {
        UpToAPage(Snap(), heap.runs, heapStart, size);
      }
      if size >= Limit(zonePages) {
        ptr := AllocLarge(size);
        return;
      }
      var (i, chunk) := ZoneIndex(size);
      IndexFits(size, zonePages);
      ListsOf(Snap());
      if zoneArray[i] != [] {
        var q := TakeChunk(i);
        ptr := Some(q);
      } else {
        ptr := OpenZone(i);
      }
    }

    /** `rt_slab_free`; a null pointer is ignored. */
    method Free(ptr: Option<nat>)
      requires Valid() && (ptr.Some? ==> Live(Snap(), ptr.value))
      modifies this, heap, heap.pages
      ensures Valid() && max == old(max)
      ensures ptr == None ==> Snap() == old(Snap()) && used == old(used)
      ensures ptr.Some? ==> OneLess(old(Snap()), Snap(), ptr.value)
      ensures ptr.Some? ==>
        exists p: nat :: LiveIn(old(Snap()), p, ptr.value) && used == old(used) - Extent(old(Snap()), p)
    {
      hide SlabState.Valid, Live, LiveIn, OneLess, InUse, Extent, Partition;
      if ptr.Some? {
        FreeLive(ptr.value);
      }
    }

    /** A live pointer is given back: the usage table says what it is. */
    method FreeLive(ptr: nat)
      requires Valid() && Live(Snap(), ptr)
      modifies this, heap, heap.pages
      ensures Valid() && OneLess(old(Snap()), Snap(), ptr) && max == old(max)
      ensures exists p: nat :: LiveIn(old(Snap()), p, ptr) && used == old(used) - Extent(old(Snap()), p)
    {
      hide SlabState.Valid, BlocksRight, OneLess, Partition, InUse, LiveIn, ZoneRight, LiveChunk, Extent;
      ghost var p: nat :| LiveIn(Snap(), p, ptr);
      Located(Snap(), p, ptr);
      PlaceOf(Snap(), p, ptr);
      var page := ptr / PAGE;
      if usage[page].kind == Large {
        FreeLarge(page, ptr);
      } else {
        FreeChunk(page - usage[page].size, ptr);
      }
    }

    method FreeLarge(p: nat, ghost ptr: nat)
      requires Valid() && p in large && ptr == p * PAGE && LiveIn(Snap(), p, ptr)
      modifies this, heap, heap.pages
      ensures Valid() && OneLess(old(Snap()), Snap(), ptr) && max == old(max)
      ensures used == old(used) - Extent(old(Snap()), p)
    {
      hide SlabState.Valid, BlocksRight, OneLess, Partition, InUse, Live;
      ghost var s := Snap();
      LargeGivenValid(s, p);
      LargeParts(s, p);
      var size := usage[p].size;
      usage := usage[p := usage[p].(size := 0)];
      used := used - size * PAGE;
      heap.PageFree(p, size);
      large := large - {p};
      assert Snap() == LargeGiven(s, p);
    }

    method FreeChunk(p: nat, ptr: nat)
      requires Valid() && p in zones && LiveIn(Snap(), p, ptr)
      modifies this, heap, heap.pages
      ensures Valid() && OneLess(old(Snap()), Snap(), ptr) && max == old(max)
      ensures used == old(used) - Extent(old(Snap()), p)
      ensures p in zones && zones[p].nfree == zones[p].nmax && zones[p].zoneIndex < |zoneArray| ==>
        |zoneArray[zones[p].zoneIndex]| <= 1
      ensures p in zones ==> zoneFree == old(zoneFree)
      ensures p in zones || |old(zoneFree)| < RELEASE_THRESH ==> heap.runs == old(heap.runs)
    {
      hide SlabState.Valid, BlocksRight, OneLess, Partition, InUse, Live, LiveIn, ZoneRight, Distinct, Remove;
      ghost var s := Snap();
      GivenValid(s, p, ptr);
      ZoneListed(s, p);
      InUseGiven(s, p, ptr);
      var z := Give(zones[p], ptr);
      used := used - z.chunkSize;
      var i := z.zoneIndex;
      if zones[p].nfree == 0 {
        zoneArray := zoneArray[i := [p] + zoneArray[i]];
      }
      zones := zones[p := z];
      GivenIs(s, p, ptr, Snap());
      ghost var t := Snap();
      ZoneListed(t, p);
      if z.nfree == z.nmax && |zoneArray[i]| > 1 {
        CloseZone(p);
        LessThenSame(s, t, Snap(), ptr);
      }
    }

    /** A zone that is all free, and not the only one of its index with chunks, becomes spare or goes back as pages. */
    method CloseZone(p: nat)
      requires Consistent() && zoneFreeCnt <= RELEASE_THRESH && used == InUse(Snap()) && used <= max
      requires p in zones && zones[p].nfree == zones[p].nmax
      modifies this, heap, heap.pages
      ensures Valid() && SameLive(old(Snap()), Snap()) && used == old(used) && max == old(max)
      ensures p !in zones
      ensures zoneFree == if |old(zoneFree)| < RELEASE_THRESH then [p] + old(zoneFree) else old(zoneFree)
      ensures |old(zoneFree)| < RELEASE_THRESH ==> heap.runs == old(heap.runs)
    {
      hide SlabState.Valid, BlocksRight, Partition, InUse, Live, ZoneRight, Distinct, Remove;
      ghost var s := Snap();
      ClosedValid(s, p);
      var i := zones[p].zoneIndex;
      zoneArray := zoneArray[i := Lists.Remove(zoneArray[i], p)];
      zones := zones - {p};
      zoneFree := [p] + zoneFree;
      zoneFreeCnt := zoneFreeCnt + 1;
      assert Snap() == Closed(s, p);
      if zoneFreeCnt > RELEASE_THRESH {
        ghost var t := Snap();
        ReleasedValid(t);
        var z := zoneFree[0];
        zoneFree := zoneFree[1..];
        zoneFreeCnt := zoneFreeCnt - 1;
        MarkPages(z, Unused);
        heap.PageFree(z, zonePages);
        assert Snap() == Released(t);
      }
    }
  }

  /** What the page allocator says of its answer makes it the first run that is long enough. */
  lemma FoundAs(runs: seq<Run>, n: nat, page: Option<nat>)
    requires page == None ==> n == 0 || FirstFit(runs, n, |runs|)
    requires page.Some? ==> n > 0 && exists i: nat :: FirstFit(runs, n, i) && i < |runs| && page.value == runs[i].start
    ensures page == PagesFound(runs, n)
  {
    if page.Some? {
      var i: nat :| FirstFit(runs, n, i) && i < |runs| && page.value == runs[i].start;
      FirstFound(runs, n, i);
    } else if n > 0 {
      FirstFound(runs, n, |runs|);
    }
  }

  /** The head of a list leaves the rest of it, and the chunk taken is live in its zone. */
  lemma TakenParts(s: State, p: nat, i: nat)
    requires SlabState.Valid(s) && i < |s.byIndex| && s.byIndex[i] != [] && p == s.byIndex[i][0]
    requires p in s.zones && s.zones[p].zoneIndex == i && s.zones[p].nfree > 0
    requires s.zones[p].uindex + 1 == s.zones[p].nmax ==> s.zones[p].free != []
    ensures var z := Take(p, s.zones[p]).0; z.chunkSize == s.zones[p].chunkSize == ChunkOf(i) && z.zoneIndex == i
    ensures Taken(s, p) == WithZone(s, p, Take(p, s.zones[p]).0,
                                    if Take(p, s.zones[p]).0.nfree == 0 then s.byIndex[i][1..] else s.byIndex[i])
    ensures LiveIn(Taken(s, p), p, Take(p, s.zones[p]).1) && Extent(Taken(s, p), p) == ChunkOf(i)
  {
    hide LiveChunk;
    assert ZoneAt(s, p);
    TakeRight(p, s.zones[p], s.zonePages);
    assert s.byIndex[i][..0] + s.byIndex[i][1..] == s.byIndex[i][1..];
  }

  lemma LargeTakenIs(s: State, p: nat, n: nat, t: State)
    requires p < |s.usage|
    requires t == s.(large := s.large[p := n], blocks := s.blocks[p := n], usage := s.usage[p := Usage(Large, n)])
    ensures t == LargeTaken(s, p, n)
  {}

  lemma TakenNow(s: State, p: nat, n: nat)
    requires SlabState.Valid(s) && p !in s.blocks && p < |s.usage| && BlocksRight(LargeTaken(s, p, n))
    ensures SlabState.Valid(LargeTaken(s, p, n)) && OneMore(s, LargeTaken(s, p, n), p * PAGE)
    ensures InUse(LargeTaken(s, p, n)) == InUse(s) + n * PAGE
    ensures LiveIn(LargeTaken(s, p, n), p, p * PAGE) && Extent(LargeTaken(s, p, n), p) == n * PAGE
      && p * PAGE / PAGE == p
  {
    LargeTakenValid(s, p, n);
    assert LargeAt(LargeTaken(s, p, n), p);
  }

  /** The usage table, of four bytes a page, fits the region. */
  lemma TableFits(npages: nat)
    requires npages > 0
    ensures 0 < RoundUp(4 * npages, PAGE) / PAGE <= npages
  {}

  /** The table comes first, and the rest stays free. */
  lemma FreshTable(npages: nat)
    requires npages > 0
    ensures FirstFit([Run(0, npages)], TablePages(npages), 0)
    ensures Carved([Run(0, npages)], 0, TablePages(npages)) == FreshRuns(npages)
  {}

  lemma NothingYet(s: State, n: nat)
    requires s.zones == map[] && s.large == map[]
    ensures Bytes(s, n) == 0
  {}

  lemma OpenedParts(s: State, i: nat)
    requires s.spare != [] && i < |s.byIndex| == NZONES
    ensures NewZone(i, s.zonePages).chunkSize == ChunkOf(i) && NewZone(i, s.zonePages).zoneIndex == i
    ensures s.zonePages >= 8 && 4 * ChunkOf(i) <= s.zonePages * PAGE ==>
      LiveIn(Opened(s, i), s.spare[0], ChunkAt(s.spare[0], NewZone(i, s.zonePages), 0))
    ensures Extent(Opened(s, i), s.spare[0]) == ChunkOf(i)
  {
    hide LiveChunk, ZoneRight;
    NewZoneIndex(i, s.zonePages);
    if s.zonePages >= 8 && 4 * ChunkOf(i) <= s.zonePages * PAGE { NewZoneRight(s.spare[0], i, s.zonePages); }
  }

  lemma SameThenMore(a: State, b: State, c: State, q: nat)
    requires (a == b || SameLive(a, b)) && OneMore(b, c, q)
    ensures OneMore(a, c, q)
  {}

  lemma LessThenSame(a: State, b: State, c: State, q: nat)
    requires OneLess(a, b, q) && SameLive(b, c)
    ensures OneLess(a, c, q)
  {}

  /** Requests below the limit have an index, and four of their chunks fit a zone. */
  lemma IndexFits(size: nat, zonePages: nat)
    requires 0 < size < Limit(zonePages) && zonePages in {8, 16, 32}
    ensures size < 16384 && ZoneIndex(size).0 < NZONES && ZoneIndex(size).1 == ChunkOf(ZoneIndex(size).0) >= size
    ensures 4 * ChunkOf(ZoneIndex(size).0) <= zonePages * PAGE
  {
    ZoneIndexChunk(size);
    if size < 8192 { SmallestClass(size, 63); } else { SmallestClass(size, 71); }
    var i := ZoneIndex(size).0;
    if i < 63 { ChunkGrows(i, 63); }
    if 63 < i < 71 { ChunkGrows(i, 71); }
  }

  lemma ListsOf(s: State)
    requires SlabState.Valid(s)
    ensures |s.byIndex| == NZONES
  {}

  /** Which branch of the release a live pointer takes. */
  lemma PlaceOf(s: State, p: nat, q: nat)
    requires SlabState.Valid(s) && LiveIn(s, p, q)
    ensures p in s.zones <==> p !in s.large
    ensures p in s.large ==> q == p * PAGE
  {
    if p in s.zones { assert ZoneAt(s, p); } else { assert LargeAt(s, p); }
  }

  lemma LargeParts(s: State, p: nat)
    requires SlabState.Valid(s) && p in s.large
    ensures p < |s.usage| && s.usage[p] == Usage(Large, s.large[p]) && p in s.blocks && s.blocks[p] == s.large[p]
    ensures Extent(s, p) == s.large[p] * PAGE && InUse(s) >= s.large[p] * PAGE
  {
    assert LargeAt(s, p);
    LargeGivenValid(s, p);
    InUsePositive(LargeGiven(s, p));
  }

  lemma ZoneListed(s: State, p: nat)
    requires SlabState.Valid(s) && p in s.zones
    ensures s.zones[p].zoneIndex < NZONES == |s.byIndex| && Extent(s, p) == s.zones[p].chunkSize
  {
    assert ZoneAt(s, p);
  }

  lemma InUseGiven(s: State, p: nat, q: nat)
    requires SlabState.Valid(s) && p in s.zones && LiveIn(s, p, q)
    ensures InUse(s) >= s.zones[p].chunkSize
  {
    hide ZoneRight, LiveChunk, BlocksRight, LiveIn, Given;
    GivenValid(s, p, q);
    InUsePositive(Given(s, p, q));
  }

  lemma InUsePositive(s: State)
    requires SlabState.Valid(s)
    ensures InUse(s) >= 0
  {
    BytesPositive(s, |s.usage|);
  }

  lemma {:induction false} BytesPositive(s: State, n: nat)
    requires SlabState.Valid(s)
    ensures Bytes(s, n) >= 0
  {
    if n > 0 {
      BytesPositive(s, n - 1);
      if n - 1 in s.zones {
        assert ZoneAt(s, n - 1);
        var z := s.zones[n - 1];
        var live := LiveCount(n - 1, z, s.zonePages);
        NotNegative(z.nmax - z.nfree, z.chunkSize);
      }
    }
  }

  lemma NotNegative(a: nat, b: nat)
    ensures a * b >= 0
  {}

  lemma GivenIs(s: State, p: nat, q: nat, n: State)
    requires SlabState.Valid(s) && p in s.zones && s.zones[p].zoneIndex < |s.byIndex|
    requires var z := Give(s.zones[p], q); var i := z.zoneIndex;
      n == s.(zones := s.zones[p := z],
              byIndex := if s.zones[p].nfree == 0 then s.byIndex[i := [p] + s.byIndex[i]] else s.byIndex)
    ensures n == Given(s, p, q)
  {}
}
