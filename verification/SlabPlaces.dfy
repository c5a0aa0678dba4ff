/** Which place a request gets, when it gets none, and which powers of two are aligned to their own size. */
module SlabPlaces {
  import opened Common
  import opened PageRuns
  import opened SlabSizes
  import opened SlabZones
  import opened SlabState
  import opened SlabSteps

  const ZONE_LIMIT := 16384

  /** From here on requests get whole pages: a quarter of a zone, but no more than the limit. */
  function Limit(zonePages: nat): (r: nat)
    ensures r <= ZONE_LIMIT && 4 * r <= zonePages * PAGE
    ensures r == ZONE_LIMIT || zonePages * PAGE < 4 * (r + 1)
  {
    if zonePages * PAGE / 4 > ZONE_LIMIT then ZONE_LIMIT else zonePages * PAGE / 4
  }

  /** What a request of this size is given. */
  function Granted(zonePages: nat, size: nat): (r: nat)
    ensures size >= Limit(zonePages) ==> size <= r < size + PAGE && r % PAGE == 0
    ensures 0 < size < Limit(zonePages) ==> size <= r && (r < size + 8 || 8 * r < 9 * size)
  {
    if 0 < size < Limit(zonePages) then
      ZoneIndexChunk(size);
      ZoneIndex(size).1
    else RoundUp(size, PAGE)
  }

  /** A heap between calls: its state and the free page runs. */
  ghost predicate Whole(s: State, runs: seq<Run>) {
    && Valid(s) && s.zonePages in {8, 16, 32}
    && Canonical(runs, |s.usage|) && Partition(runs, s.blocks, |s.usage|)
  }

  // ---- The region ----

  /** RT_ALIGN to a page, in a word. */
  function PageUp(x: nat): (r: nat)
    ensures r % PAGE == 0 && (x + PAGE <= WORD ==> x <= r < x + PAGE)
  {
    WordOfPages(RoundUp(x, PAGE));
    RoundUp(x, PAGE) % WORD
  }

  lemma WordOfPages(x: nat)
    requires x % PAGE == 0
    ensures x % WORD % PAGE == 0
  {}

  function PageDown(x: nat): (r: nat)
    ensures r % PAGE == 0 && r <= x < r + PAGE
  {
    x - x % PAGE
  }

  /** How `rt_slab_init` cuts a region to pages, in words: its start and its number of pages, or nothing. */
  function RegionPages(begin: nat, size: nat, descriptor: nat): Option<(nat, nat)>
    requires begin < WORD && size < WORD && descriptor < WORD
  {
    var start, end := PageUp((Rounded(begin) + descriptor) % WORD), PageDown((begin + size) % WORD);
    if start >= end then None else Some((start, (end - start) / PAGE))
  }

  /**
   * A region inside the address space is refused exactly when no whole page fits behind the descriptor; else all of it
   * lies inside.
   */
  lemma PagesInRegion(begin: nat, size: nat, descriptor: nat)
    requires begin + size < WORD && 0 < descriptor && begin + descriptor + RT_ALIGN_SIZE + PAGE <= WORD
    ensures var start := PageUp(Rounded(begin) + descriptor);
      match RegionPages(begin, size, descriptor)
      case None => start + PAGE > begin + size
      case Some((first, n)) =>
        && first == start > 0 && start % PAGE == 0 && begin + descriptor <= start && n > 0
        && start + n * PAGE <= begin + size < start + (n + 1) * PAGE
  {
    hide Rounded, PageUp, PageDown;
    RoundedUp(begin);
    var start, end := PageUp(Rounded(begin) + descriptor), PageDown(begin + size);
    if start < end { WholeNumber(end, start); }
  }

  lemma RoundedUp(x: nat)
    requires x + RT_ALIGN_SIZE <= WORD
    ensures x <= Rounded(x) < x + RT_ALIGN_SIZE
  {}

  lemma WholeNumber(end: nat, start: nat)
    requires end % PAGE == 0 && start % PAGE == 0 && start < end
    ensures (end - start) / PAGE * PAGE == end - start && (end - start) / PAGE > 0
  {}

  // ---- Where a request is served ----

  /** No run has `n` pages. */
  ghost predicate NoRun(runs: seq<Run>, n: nat) {
    forall k :: 0 <= k < |runs| ==> runs[k].pages < n
  }

  /** The first page of the first run that has `n` pages. */
  ghost function PagesFound(runs: seq<Run>, n: nat): (page: Option<nat>)
    ensures page == None <==> n == 0 || NoRun(runs, n)
  {
    if n == 0 || runs == [] then None
    else if runs[0].pages >= n then assert !NoRun(runs, n); Some(runs[0].start)
    else assert forall k :: 0 <= k < |runs| - 1 ==> runs[1..][k] == runs[k + 1]; PagesFound(runs[1..], n)
  }

  lemma {:induction false} FirstFound(runs: seq<Run>, n: nat, i: nat)
    requires n > 0 && FirstFit(runs, n, i)
    ensures PagesFound(runs, n) == if i < |runs| then Some(runs[i].start) else None
  {
    if i > 0 { FirstFound(runs[1..], n, i - 1); }
  }

  /** The chunk that the first zone on the list of index `i` gives. */
  ghost function ChunkFound(s: State, i: nat): nat
    requires Valid(s) && i < NZONES && |s.byIndex| == NZONES && s.byIndex[i] != []
  {
    FirstListed(s, i);
    TakeReady(s, s.byIndex[i][0]);
    Take(s.byIndex[i][0], s.zones[s.byIndex[i][0]]).1
  }

  lemma FirstListed(s: State, i: nat)
    requires Valid(s) && i < NZONES && |s.byIndex| == NZONES && s.byIndex[i] != []
    ensures var p := s.byIndex[i][0]; p in s.zones && s.zones[p].zoneIndex == i && s.zones[p].nfree > 0
  {
    assert ListAt(s, i);
    assert s.byIndex[i][0] in s.byIndex[i];
  }

  /** The page of the next zone of any index: a spare one first, then new pages. */
  ghost function ZoneFound(s: State, runs: seq<Run>): Option<nat> {
    if s.spare != [] then Some(s.spare[0]) else PagesFound(runs, s.zonePages)
  }

  /** Whole pages for a large request, rounded up in 32 bits. */
  ghost function LargeFound(runs: seq<Run>, size: nat): Option<nat> {
    match PagesFound(runs, RoundUp(size, PAGE) % WORD / PAGE)
    case None => None
    case Some(p) => Some(p * PAGE)
  }

  ghost function SmallFound(s: State, runs: seq<Run>, i: nat): Option<nat>
    requires Valid(s) && i < NZONES && |s.byIndex| == NZONES
  {
    if s.byIndex[i] != [] then Some(ChunkFound(s, i))
    else
      match ZoneFound(s, runs)
      case None => None
      case Some(p) => Some(ChunkAt(p, NewZone(i, s.zonePages), 0))
  }

  /** What a request of this size gets. */
  ghost function Found(s: State, runs: seq<Run>, size: nat): Option<nat>
    requires Valid(s)
  {
    if size == 0 then None
    else if size >= Limit(s.zonePages) then LargeFound(runs, size)
    else
      ZoneIndexChunk(size);
      SmallFound(s, runs, ZoneIndex(size).0)
  }

  /**
   * When there is nothing to get: for size zero; for a large request whose rounding wraps or that no run is long enough
   * for; for a small one with no zone of its index that has chunks, no spare zone, and no run for a new one.
   */
  ghost predicate Refused(s: State, runs: seq<Run>, size: nat)
    requires Valid(s)
  {
    || size == 0
    || (size >= Limit(s.zonePages) && (RoundUp(size, PAGE) >= WORD || NoRun(runs, RoundUp(size, PAGE) / PAGE)))
    || (0 < size < Limit(s.zonePages) && NoChunks(s, size) && s.spare == [] && NoRun(runs, s.zonePages))
  }

  /** No zone of the index of this size has a chunk left. */
  ghost predicate NoChunks(s: State, size: nat)
    requires Valid(s) && 0 < size < Limit(s.zonePages)
  {
    forall p: nat :: p in s.zones && s.zones[p].zoneIndex == ZoneIndex(size).0 ==> s.zones[p].nfree == 0
  }

  lemma RefusedExactly(s: State, runs: seq<Run>, size: nat)
    requires Valid(s) && size < WORD
    ensures Found(s, runs, size) == None <==> Refused(s, runs, size)
  {
    hide NoRun;
    if 0 < size < Limit(s.zonePages) {
      ZoneIndexChunk(size);
      assert ListAt(s, ZoneIndex(size).0);
      var row := s.byIndex[ZoneIndex(size).0];
      if row != [] { assert row[0] in row; }
    } else if size > 0 {
      WholePages(size);
    }
  }

  /** Pages of a request, in a word. */
  lemma WholePages(size: nat)
    requires 0 < size < WORD
    ensures RoundUp(size, PAGE) % WORD % PAGE == 0
    ensures RoundUp(size, PAGE) >= WORD ==> RoundUp(size, PAGE) % WORD == 0
    ensures RoundUp(size, PAGE) < WORD ==> RoundUp(size, PAGE) % WORD == RoundUp(size, PAGE) > 0
    ensures RoundUp(size, PAGE) / PAGE > 0
  {
    hide RoundUp;
    PagesInWord(RoundUp(size, PAGE));
  }

  lemma PagesInWord(r: nat)
    requires r % PAGE == 0 && 0 < r < WORD + PAGE
    ensures r % WORD % PAGE == 0 && (r >= WORD ==> r == WORD) && (r < WORD ==> r % WORD == r) && r / PAGE > 0
  {
    var k := r / PAGE;
    assert r == k * PAGE;
  }
}
