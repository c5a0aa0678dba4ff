/** The small-memory allocator: headers rewritten in place in the heap buffer. */
module SmallMem {
  import opened Common
  import opened SmallMemBlocks
  import opened SmallMemAccounting

  /** `struct rt_small_mem_item`; `used` is the low bit of `pool_ptr`. */
  datatype Header = Header(used: bool, next: nat, prev: nat)

  /** The headers at the blocks' addresses describe the blocks; the end marker's `prev` may be anything. */
  ghost predicate Linked(h: seq<Header>, bs: seq<Block>) {
    forall k :: 0 <= k < |bs| ==> LinkedAt(h, bs, k)
  }

  ghost predicate LinkedAt(h: seq<Header>, bs: seq<Block>, k: nat)
    requires k < |bs|
  {
    && bs[k].at < |h|
    && h[bs[k].at].used == !bs[k].free
    && h[bs[k].at].next == (if k < |bs| - 1 then bs[k + 1].at else bs[k].at)
    && (k == 0 ==> h[bs[k].at].prev == 0)
    && (0 < k < |bs| - 1 ==> h[bs[k].at].prev == bs[k - 1].at)
  }

  lemma At(h: seq<Header>, bs: seq<Block>, k: nat)
    requires Linked(h, bs) && k < |bs|
    ensures LinkedAt(h, bs, k)
  {}

  ghost predicate Increasing(bs: seq<Block>) {
    forall a, b :: 0 <= a < b < |bs| ==> bs[a].at + HEADER <= bs[b].at
  }

  lemma TiledIncreasing(bs: seq<Block>, end: nat)
    requires Tiled(bs, end)
    ensures Increasing(bs)
  {
    forall i, j | 0 <= i < j < |bs| ensures bs[i].at + HEADER <= bs[j].at { Ascending(bs, end, i, j); }
  }

  // ---- Header writes and the block changes they make ----

  lemma MarkLinked(h: seq<Header>, bs: seq<Block>, i: nat, free: bool)
    requires Linked(h, bs) && i < |bs| && Increasing(bs)
    ensures bs[i].at < |h| && Linked(h[bs[i].at := h[bs[i].at].(used := !free)], Mark(bs, i, free))
  {
    At(h, bs, i);
    var r, g := Mark(bs, i, free), h[bs[i].at := h[bs[i].at].(used := !free)];
    forall k | 0 <= k < |r| ensures LinkedAt(g, r, k) { At(h, bs, k); }
  }

  /** Joining block `i + 1` to block `i`: the writes of one direction of `plug_holes`. */
  ghost function Joined(h: seq<Header>, m: nat, n: nat): seq<Header>
    requires m < |h| && n < |h| && m != n && h[n].next < |h|
  {
    var h1 := h[n := h[n].(used := false)];
    var h2 := h1[m := h1[m].(next := h1[n].next)];
    h2[h[n].next := h2[h[n].next].(prev := m)]
  }

  ghost predicate Joinable(h: seq<Header>, bs: seq<Block>, i: nat) {
    && i + 2 < |bs| && bs[i].at < bs[i + 1].at < bs[i + 2].at < |h|
    && h[bs[i + 1].at].next == bs[i + 2].at
  }

  lemma JoinedValues(h: seq<Header>, m: nat, n: nat)
    requires m < n < |h| && n < h[n].next < |h|
    ensures |Joined(h, m, n)| == |h|
    ensures Joined(h, m, n)[m] == h[m].(next := h[n].next)
    ensures Joined(h, m, n)[h[n].next] == h[h[n].next].(prev := m)
    ensures forall a :: 0 <= a < |h| && a != m && a != n && a != h[n].next ==> Joined(h, m, n)[a] == h[a]
  {}

  lemma JoinedLinkedAt(h: seq<Header>, bs: seq<Block>, i: nat, k: nat)
    requires Linked(h, bs) && Increasing(bs) && Joinable(h, bs, i) && k < |bs| - 1 && |Merge(bs, i)| == |bs| - 1
    ensures LinkedAt(Joined(h, bs[i].at, bs[i + 1].at), Merge(bs, i), k)
  {
    hide Merge, Joined, Linked;
    var j := if k <= i then k else k + 1;
    At(h, bs, i);
    At(h, bs, j);
    JoinedValues(h, bs[i].at, bs[i + 1].at);
    MergeAt(bs, i);
    assert k < i ==> bs[k].at + HEADER <= bs[i].at;
    assert k > i + 1 ==> bs[i + 2].at + HEADER <= bs[k + 1].at;
    var r := Merge(bs, i);
    assert r[k] == bs[j];
    if k + 1 < |r| { assert r[k + 1] == bs[if k + 1 <= i then k + 1 else k + 2]; }
    if k > 0 { assert r[k - 1] == bs[if k - 1 <= i then k - 1 else k]; }
  }

  lemma JoinedLinked(h: seq<Header>, bs: seq<Block>, i: nat)
    requires Linked(h, bs) && i + 2 < |bs| && Increasing(bs)
    ensures Joinable(h, bs, i)
    ensures Linked(Joined(h, bs[i].at, bs[i + 1].at), Merge(bs, i))
  {
    hide Merge, Joined, LinkedAt;
    At(h, bs, i + 1);
    At(h, bs, i + 2);
    MergeAt(bs, i);
    var r, g := Merge(bs, i), Joined(h, bs[i].at, bs[i + 1].at);
    forall k | 0 <= k < |r| ensures LinkedAt(g, r, k) { JoinedLinkedAt(h, bs, i, k); }
  }

  /** The writes that cut a free item at `x` off the end of the item at `m`. */
  ghost function Cut(h: seq<Header>, m: nat, x: nat, end: nat): seq<Header>
    requires m < |h| && x < |h| && m != x && h[m].next < |h|
  {
    var n := h[m].next;
    var h1 := h[x := Header(false, n, m)];
    var h2 := h1[m := h1[m].(next := x)];
    if n != end then h2[n := h2[n].(prev := x)] else h2
  }

  ghost predicate Cuttable(h: seq<Header>, bs: seq<Block>, i: nat, x: nat) {
    && i + 1 < |bs| && bs[i].at < x < bs[i + 1].at < |h|
    && h[bs[i].at].next == bs[i + 1].at
  }

  lemma CutValues(h: seq<Header>, m: nat, x: nat, end: nat)
    requires m < |h| && m < x < h[m].next < |h|
    ensures |Cut(h, m, x, end)| == |h|
    ensures Cut(h, m, x, end)[m] == h[m].(next := x)
    ensures Cut(h, m, x, end)[x] == Header(false, h[m].next, m)
    ensures var n := h[m].next; Cut(h, m, x, end)[n] == if n != end then h[n].(prev := x) else h[n]
    ensures forall a :: 0 <= a < |h| && a != m && a != x && a != h[m].next ==> Cut(h, m, x, end)[a] == h[a]
  {}

  lemma CutLinkedAt(h: seq<Header>, bs: seq<Block>, i: nat, x: nat, end: nat, k: nat)
    requires Linked(h, bs) && Increasing(bs) && Cuttable(h, bs, i, x) && k <= |bs| && |Split(bs, i, x)| == |bs| + 1
    requires bs[|bs| - 1].at == end
    ensures LinkedAt(Cut(h, bs[i].at, x, end), Split(bs, i, x), k)
  {
    hide Split, Cut, Linked;
    var j := if k <= i then k else k - 1;
    At(h, bs, i);
    At(h, bs, j);
    CutValues(h, bs[i].at, x, end);
    SplitAt(bs, i, x);
    assert j < i ==> bs[j].at + HEADER <= bs[i].at;
    assert j > i + 1 ==> bs[i + 1].at + HEADER <= bs[j].at;
    var r := Split(bs, i, x);
    assert k != i + 1 ==> r[k] == bs[j];
    if k < |bs| { assert r[k + 1] == if k < i then bs[k + 1] else if k == i then Block(x, true) else bs[k]; }
    if k > 0 { assert r[k - 1] == if k - 1 <= i then bs[k - 1] else if k == i + 2 then Block(x, true) else bs[k - 2]; }
  }

  lemma CutLinked(h: seq<Header>, bs: seq<Block>, i: nat, x: nat, end: nat)
    requires Linked(h, bs) && i + 1 < |bs| && Increasing(bs)
    requires bs[i].at < x < bs[i + 1].at && bs[|bs| - 1].at == end
    ensures Cuttable(h, bs, i, x)
    ensures Linked(Cut(h, bs[i].at, x, end), Split(bs, i, x))
  {
    hide Split, Cut, LinkedAt;
    At(h, bs, i);
    At(h, bs, i + 1);
    SplitAt(bs, i, x);
    var r, g := Split(bs, i, x), Cut(h, bs[i].at, x, end);
    forall k | 0 <= k < |r| ensures LinkedAt(g, r, k) { CutLinkedAt(h, bs, i, x, end, k); }
  }

  /** How addresses tell neighbours apart. */
  lemma Order(bs: seq<Block>, end: nat, i: nat)
    requires Tiled(bs, end) && i < |bs| - 1
    ensures bs[i].at < bs[i + 1].at && (bs[i + 1].at == end <==> i + 1 == |bs| - 1)
    ensures 0 < i ==> bs[i - 1].at < bs[i].at
    ensures i == 0 <==> bs[i].at == 0
  {
    if i + 1 < |bs| - 1 { Ascending(bs, end, i + 1, |bs| - 1); }
    if 0 < i { Ascending(bs, end, 0, i); }
  }

  lemma LowestAtMost(bs: seq<Block>, end: nat, low: nat, i: nat)
    requires Tiled(bs, end) && LowestFree(bs, low) && i < |bs| && bs[i].free
    ensures low <= i && bs[low].at <= bs[i].at && bs[low].free
  {
    if low < i { Ascending(bs, end, low, i); }
  }

  lemma CutIs(h: seq<Header>, m: nat, x: nat, end: nat, g: seq<Header>)
    requires m < |h| && m < x < h[m].next < |h|
    requires var n := h[m].next;
      var h2 := h[x := Header(false, n, m)][m := h[m].(next := x)];
      g == if n != end then h2[n := h[n].(prev := x)] else h2
    ensures g == Cut(h, m, x, end)
  {}

  /** Past `mem_size_aligned - size` no block can hold `size` bytes any more. */
  lemma LateBlocksTooSmall(bs: seq<Block>, end: nat, k: nat, size: nat)
    requires Tiled(bs, end) && k < |bs| && bs[k].at + size + HEADER > end
    ensures forall j :: k <= j < |bs| - 1 ==> Payload(bs, j) < size
  {
    forall j | k <= j < |bs| - 1 ensures Payload(bs, j) < size {
      if k < j { Ascending(bs, end, k, j); }
      if j + 1 < |bs| - 1 { Ascending(bs, end, j + 1, |bs| - 1); }
    }
  }

  lemma AllocatedShape(bs: seq<Block>, end: nat, i: nat, size: nat)
    requires Tiled(bs, end) && i < |bs| - 1 && bs[i].free && Payload(bs, i) >= size && size >= MIN_SIZE_ALIGNED
    requires Aligned(size)
    ensures if bs[i + 1].at - bs[i].at - HEADER >= size + HEADER + MIN_SIZE_ALIGNED then
              var x := bs[i].at + HEADER + size;
              var cs := Split(bs, i, x);
              && i + 1 < |cs| && cs[i] == bs[i] && cs[i + 1].at == x
              && Allocated(bs, i, size) == Mark(cs, i, false)
              && Used(Allocated(bs, i, size)) == Used(bs) + size + HEADER
            else
              Allocated(bs, i, size) == Mark(bs, i, false)
              && Used(Allocated(bs, i, size)) == Used(bs) + bs[i + 1].at - bs[i].at
  {
    AllocatedLive(bs, end, i, size, 0, 0);
    SplitAt(bs, i, bs[i].at + HEADER + size);
  }

  lemma VacateLowest(bs: seq<Block>, end: nat, low: nat, i: nat)
    requires Tiled(bs, end) && LowestFree(bs, low) && i < |bs| - 1 && !bs[i].free
    ensures LowestFree(Mark(bs, i, true), if bs[i].at < bs[low].at then i else low)
  {
    if i < low { Ascending(bs, end, i, low); } else if low < i { Ascending(bs, end, low, i); }
  }

  /** Where block `i` is once block `k` has been allocated. */
  ghost function StillAt(bs: seq<Block>, i: nat, k: nat, size: nat): nat
    requires i + 1 < |bs| && k + 1 < |bs|
  {
    if k < i && |Allocated(bs, k, size)| > |bs| then i + 1 else i
  }

  /** A move: block `k` is allocated, and then block `i`, wherever that has put it, is given back. */
  ghost function Relocated(bs: seq<Block>, i: nat, k: nat, size: nat): seq<Block>
    requires i + 1 < |bs| && k + 1 < |bs|
  {
    var cs := Allocated(bs, k, size);
    Freed(cs, StillAt(bs, i, k, size))
  }

  lemma MoveApart(cs: seq<Block>, end: nat, a: nat, m: int, b: nat, n: int)
    requires Tiled(cs, end) && LiveAt(cs, a, m) && LiveAt(cs, b, n) && a != b
    ensures a + HEADER + m <= b || b + HEADER + n <= a
    ensures 0 < m && 0 < n && a + HEADER + m <= end && b + HEADER + n <= end
  {
    LiveDisjoint(cs, end, a, m, b, n);
    LiveInside(cs, end, a, m);
    LiveInside(cs, end, b, n);
  }

  lemma LiveSpan(bs: seq<Block>, end: nat, i: nat)
    requires Tiled(bs, end) && i < |bs| - 1 && !bs[i].free
    ensures bs[i].at + HEADER + Payload(bs, i) <= end && 0 < Payload(bs, i)
  {
    assert LiveBlock(bs, i, bs[i].at, Payload(bs, i));
    LiveInside(bs, end, bs[i].at, Payload(bs, i));
  }

  /** `n` bytes went from `src` to `dst`; no other byte changed. */
  ghost predicate CopiedOnly(d: seq<bv8>, e: seq<bv8>, dst: int, src: int, n: int) {
    && 0 <= n && 0 <= dst && 0 <= src && dst + n <= |d| && src + n <= |d| && |e| == |d|
    && e[dst..dst + n] == d[src..src + n]
    && forall b :: 0 <= b < |d| && !(dst <= b < dst + n) ==> e[b] == d[b]
  }

  lemma StillThere(bs: seq<Block>, end: nat, i: nat, k: nat, size: nat)
    requires Canonical(bs, end) && i < |bs| - 1 && !bs[i].free && FirstFit(bs, k, size)
    requires Aligned(size) && size >= MIN_SIZE_ALIGNED
    ensures i != k && StillAt(bs, i, k, size) < |Allocated(bs, k, size)| - 1
    ensures Allocated(bs, k, size)[StillAt(bs, i, k, size)] == bs[i]
    ensures Payload(Allocated(bs, k, size), StillAt(bs, i, k, size)) == Payload(bs, i)
  {
    hide Tiled, Split, Aligned, Coalesced;
    SplitAt(bs, k, bs[k].at + HEADER + size);
  }

  /** The live payloads after a move: the new block's, not the old one's, and the rest as before. */
  lemma MovedLive(bs: seq<Block>, end: nat, i: nat, k: nat, size: nat, at: nat, len: int)
    requires Canonical(bs, end) && i < |bs| - 1 && !bs[i].free && FirstFit(bs, k, size)
    requires Aligned(size) && size >= MIN_SIZE_ALIGNED
    ensures k + 1 < |Allocated(bs, k, size)| && Payload(Allocated(bs, k, size), k) >= size && bs[k].at != bs[i].at
    ensures LiveAt(Relocated(bs, i, k, size), at, len) <==>
      if at == bs[k].at then len == Payload(Allocated(bs, k, size), k) else at != bs[i].at && LiveAt(bs, at, len)
  {
    hide LiveAt, Allocated, Freed, Tiled, StillAt;
    AllocatedCanonical(bs, end, k, size);
    if bs[i].at == bs[k].at { SameAddress(bs, end, i, k); }
    StillThere(bs, end, i, k, size);
    AllocatedLive(bs, end, k, size, at, len);
    FreedLive(Allocated(bs, k, size), end, StillAt(bs, i, k, size), at, len);
  }

  /** Everything a move relies on: where the old block is, and that the two payloads lie apart. */
  lemma MoveReady(bs: seq<Block>, end: nat, i: nat, k: nat, size: nat)
    requires Canonical(bs, end) && i < |bs| - 1 && !bs[i].free && FirstFit(bs, k, size)
    requires Aligned(size) && size >= MIN_SIZE_ALIGNED
    ensures var cs, j := Allocated(bs, k, size), StillAt(bs, i, k, size);
      j + 1 < |cs| && !cs[j].free && cs[j].at == bs[i].at && Relocated(bs, i, k, size) == Freed(cs, j)
    ensures var a, b, n := bs[k].at + HEADER, bs[i].at + HEADER, Payload(bs, i);
      0 < n && a + size <= end && b + n <= end && (a + size <= b || b + n <= a)
  {
    hide LiveAt, Allocated, Freed, Tiled, StillAt, Payload;
    StillThere(bs, end, i, k, size);
    var cs, j := Allocated(bs, k, size), StillAt(bs, i, k, size);
    AllocatedCanonical(bs, end, k, size);
    AllocatedAt(bs, end, k, size);
    if bs[i].at == bs[k].at { SameAddress(bs, end, i, k); }
    BlockLive(cs, k);
    BlockLive(cs, j);
    MoveApart(cs, end, bs[k].at, Payload(cs, k), bs[i].at, Payload(cs, j));
  }

  lemma AllocatedAt(bs: seq<Block>, end: nat, k: nat, size: nat)
    requires Canonical(bs, end) && FirstFit(bs, k, size) && size >= MIN_SIZE_ALIGNED
    ensures var cs := Allocated(bs, k, size); k + 1 < |cs| && cs[k] == Block(bs[k].at, false)
  {}

  lemma BlockLive(bs: seq<Block>, i: nat)
    requires i + 1 < |bs| && !bs[i].free
    ensures LiveAt(bs, bs[i].at, Payload(bs, i))
  {
    assert LiveBlock(bs, i, bs[i].at, Payload(bs, i));
  }

  lemma ShrinkLowest(bs: seq<Block>, end: nat, low: nat, i: nat, x: nat)
    requires Tiled(bs, end) && LowestFree(bs, low) && i < |bs| - 1 && !bs[i].free && bs[i].at < x < bs[i + 1].at
    ensures LowestFree(Split(bs, i, x), if x < bs[low].at then i + 1 else low)
    ensures x < bs[low].at || low <= i
  {
    hide Split;
    SplitAt(bs, i, x);
    if i + 1 < low { Ascending(bs, end, i + 1, low); }
    if low < i { Ascending(bs, end, low, i); }
  }

  lemma ShrinkReady(h: seq<Header>, bs: seq<Block>, end: nat, low: nat, i: nat, size: nat)
    requires Canonical(bs, end) && Linked(h, bs) && LowestFree(bs, low) && i < |bs| - 1 && !bs[i].free
    requires Aligned(size) && 0 < size && size + HEADER + MIN_SIZE < Payload(bs, i)
    ensures var x := bs[i].at + HEADER + size;
      && Aligned(x) && bs[i].at + HEADER + RT_ALIGN_SIZE <= x && x + HEADER <= bs[i + 1].at
      && bs[i].at < |h| && h[bs[i].at].next == bs[i + 1].at
      && LowestFree(Split(bs, i, x), if x < bs[low].at then i + 1 else low) && (x < bs[low].at || low <= i)
      && i + 1 < |Split(bs, i, x)| - 1 && Split(bs, i, x)[i + 1] == Block(x, true)
      && Shrunk(bs, i, size) == Plugged(Split(bs, i, x), i + 1)
    ensures Coalesced(Shrunk(bs, i, size)) && Shrunk(bs, i, size) != []
    ensures Used(Shrunk(bs, i, size)) == Used(bs) - (bs[i + 1].at - bs[i].at - HEADER - size)
    ensures size <= bs[i + 1].at - bs[i].at - HEADER
  {
    hide *;
    ShrinkBasics(h, bs, end, i, size);
    ShrinkCanonicalParts(bs, end, i, size);
    ShrunkLive(bs, end, i, size, 0, 0);
    SplitAt(bs, i, bs[i].at + HEADER + size);
    ShrinkLowest(bs, end, low, i, bs[i].at + HEADER + size);
  }

  lemma ShrinkCanonicalParts(bs: seq<Block>, end: nat, i: nat, size: nat)
    requires Tiled(bs, end) && Coalesced(bs) && i < |bs| - 1 && !bs[i].free
    requires Aligned(size) && 0 < size && size + HEADER + MIN_SIZE < bs[i + 1].at - bs[i].at - HEADER
    ensures Coalesced(Shrunk(bs, i, size))
  {
    ShrunkCanonical(bs, end, i, size);
  }

  lemma PayloadIs(bs: seq<Block>, i: nat)
    requires i + 1 < |bs|
    ensures Payload(bs, i) == bs[i + 1].at - bs[i].at - HEADER
  {}

  lemma CarveReady(h: seq<Header>, bs: seq<Block>, end: nat, i: nat, size: nat)
    requires Canonical(bs, end) && Linked(h, bs) && i < |bs| - 1 && bs[i].free
    requires Aligned(size) && size >= MIN_SIZE_ALIGNED && bs[i].at + HEADER + size <= bs[i + 1].at
    ensures var x, extent := bs[i].at + HEADER + size, bs[i + 1].at - bs[i].at;
      && bs[i].at < |h| && h[bs[i].at].next == bs[i + 1].at && Aligned(x) && RT_ALIGN_SIZE <= size
      && Coalesced(Allocated(bs, i, size)) && i < |Split(bs, i, x)| && Allocated(bs, i, size) != []
      && (if extent - HEADER >= size + HEADER + MIN_SIZE_ALIGNED then
            Allocated(bs, i, size) == Mark(Split(bs, i, x), i, false)
              && Used(Allocated(bs, i, size)) == Used(bs) + size + HEADER
          else Allocated(bs, i, size) == Mark(bs, i, false) && Used(Allocated(bs, i, size)) == Used(bs) + extent)
  {
    hide Linked, Tiled, Used, Split, Aligned, Coalesced, Allocated, Mark;
    PayloadIs(bs, i);
    At(h, bs, i);
    AllocatedCanonical(bs, end, i, size);
    AllocatedShape(bs, end, i, size);
    BlockAligned(bs, end, i);
    AlignedSum(bs[i].at, size);
    SplitAt(bs, i, bs[i].at + HEADER + size);
  }

  lemma ShrinkBasics(h: seq<Header>, bs: seq<Block>, end: nat, i: nat, size: nat)
    requires Canonical(bs, end) && Linked(h, bs) && i < |bs| - 1 && !bs[i].free
    requires Aligned(size) && 0 < size && size + HEADER + MIN_SIZE < Payload(bs, i)
    ensures var x := bs[i].at + HEADER + size;
      && Aligned(x) && bs[i].at + HEADER + RT_ALIGN_SIZE <= x && x + HEADER <= bs[i + 1].at
      && bs[i].at < |h| && h[bs[i].at].next == bs[i + 1].at && i + 1 < |Split(bs, i, x)|
      && Shrunk(bs, i, size) == Plugged(Split(bs, i, x), i + 1)
    ensures Tiled(bs, end) && Coalesced(bs) && Payload(bs, i) == bs[i + 1].at - bs[i].at - HEADER
  {
    At(h, bs, i);
    BlockAligned(bs, end, i);
    AlignedSum(bs[i].at, size);
  }

  lemma BackwardFacts(h: seq<Header>, bs: seq<Block>, end: nat, low: nat, i: nat)
    requires Tiled(bs, end) && Linked(h, bs) && LowestFree(bs, low) && i < |bs| - 1 && bs[i].free
    ensures var p := (At(h, bs, i); h[bs[i].at].prev);
      if i == 0 then p == bs[i].at
      else p == bs[i - 1].at < bs[i].at && p < |h| && h[p].used == !bs[i - 1].free
           && (bs[i - 1].free ==> low <= i - 1 && bs[low].at <= p)
  {
    At(h, bs, i);
    Order(bs, end, i);
    if i > 0 {
      At(h, bs, i - 1);
      if bs[i - 1].free { LowestAtMost(bs, end, low, i - 1); }
    }
  }

  lemma EndIsLast(bs: seq<Block>, end: nat, k: nat)
    requires Tiled(bs, end) && k < |bs|
    ensures bs[k].at == end <==> k == |bs| - 1
  {
    if bs[k].at == end { SameAddress(bs, end, k, |bs| - 1); }
  }

  lemma OccupyLowest(bs: seq<Block>, end: nat, low: nat, i: nat)
    requires Tiled(bs, end) && LowestFree(bs, low) && i < |bs| - 1 && bs[i].free
    ensures bs[i].at == bs[low].at ==> low == i
    ensures low != i ==> LowestFree(Mark(bs, i, false), low)
    ensures low == i ==> forall j :: 0 <= j < low ==> !Mark(bs, i, false)[j].free
  {
    LowestAtMost(bs, end, low, i);
    if bs[i].at == bs[low].at { SameAddress(bs, end, i, low); }
  }

  lemma JoinedIs(h: seq<Header>, m: nat, n: nat, g: seq<Header>)
    requires m < n < |h| && n < h[n].next < |h|
    requires var x := h[n].next; g == h[n := h[n].(used := false)][m := h[m].(next := x)][x := h[x].(prev := m)]
    ensures g == Joined(h, m, n)
  {}

  lemma LowestKept(bs: seq<Block>, cs: seq<Block>, low: nat, i: nat)
    requires LowestFree(bs, low) && low <= i < |bs| - 1 && i < |cs|
    requires forall k {:trigger cs[k]} :: 0 <= k <= i ==> cs[k] == bs[k]
    ensures LowestFree(cs, low)
  {}

  class SmallMem {
    const memSizeAligned: nat
    const heap: array<Header>
    const data: array<bv8>
    var lfree: int
    var used: int
    var max: int
    ghost var blocks: seq<Block>
    ghost var lowest: nat

    const end: nat := memSizeAligned + HEADER  // offset of heap_end

    /** Headers, blocks and the lowest-free pointer agree; what a half-finished operation keeps. */
    ghost predicate Consistent()
      reads this, heap
    {
      && heap.Length == end + 1 && data.Length == end && end < WORD
      && Tiled(blocks, end) && Linked(heap[..], blocks)
      && LowestFree(blocks, lowest) && lfree == blocks[lowest].at
    }

    ghost predicate Valid()
      reads this, heap
    {
      Consistent() && Coalesced(blocks) && used == Used(blocks) && used <= max
    }

    /** `rt_smem_init`, for a region whose ends `HeapSize` has aligned. */
    constructor (memSizeAligned: nat)
      requires Aligned(memSizeAligned) && memSizeAligned + HEADER < WORD
      ensures this.memSizeAligned == memSizeAligned && Valid() && fresh(heap) && fresh(data)
      ensures blocks == [Block(0, true), Block(end, false)] && used == 0 && max == 0
    {
      this.memSizeAligned := memSizeAligned;
      var h := new Header[memSizeAligned + HEADER + 1](_ => Header(false, 0, 0));
      h[0] := Header(false, memSizeAligned + HEADER, 0);
      h[memSizeAligned + HEADER] := Header(true, memSizeAligned + HEADER, memSizeAligned + HEADER);
      heap := h;
      data := new bv8[memSizeAligned + HEADER](_ => 0);
      lfree := 0;
      used, max := 0, 0;
      blocks, lowest := [Block(0, true), Block(memSizeAligned + HEADER, false)], 0;
      new;
      assert UsedTo(blocks, 1) == UsedTo(blocks, 0);
    }

    /** The item at `m` swallows its free successor at `n`. */
    method Join(m: nat, n: nat, ghost i: nat)
      requires Consistent() && i + 2 < |blocks| && m == blocks[i].at && n == blocks[i + 1].at
      requires blocks[i].free && blocks[i + 1].free && lowest <= i
      modifies heap, this`blocks
      ensures Consistent() && blocks == Merge(old(blocks), i)
    {
      TiledIncreasing(blocks, end);
      JoinedLinked(heap[..], blocks, i);
      MergeTiled(blocks, end, i);
      MergeAt(blocks, i);
      ghost var h := heap[..];
      hide *;
      heap[n] := heap[n].(used := false);
      var next := heap[n].next;
      heap[m] := heap[m].(next := next);
      heap[next] := heap[next].(prev := m);
      JoinedIs(h, m, n, heap[..]);
      blocks := Merge(blocks, i);
      LowestKept(old(blocks), blocks, lowest, i);
    }

    method PlugForward(mem: nat, ghost i: nat)
      requires Consistent() && i < |blocks| - 1 && mem == blocks[i].at && blocks[i].free
      modifies heap, this`lfree, this`blocks
      ensures Consistent() && blocks == PluggedFront(old(blocks), i) && i < |blocks| - 1
      ensures blocks[i] == old(blocks[i])
    {
      hide Tiled, Linked, Merge, LowestFree;
      At(heap[..], blocks, i);
      At(heap[..], blocks, i + 1);
      LastBlock(blocks, end);
      Order(blocks, end, i);
      LowestAtMost(blocks, end, lowest, i);
      MergeAt(blocks, i);
      var nmem := heap[mem].next;
      if mem != nmem && !heap[nmem].used && nmem != end {
        lfree := if lfree == nmem then mem else lfree;
        Join(mem, nmem, i);
      }
    }

    method PlugBackward(mem: nat, ghost i: nat)
      requires Consistent() && i < |blocks| - 1 && mem == blocks[i].at && blocks[i].free
      modifies heap, this`lfree, this`blocks
      ensures Consistent() && blocks == PluggedBack(old(blocks), i)
    {
        hide Tiled, Linked, Merge, LowestFree;
      At(heap[..], blocks, i);
      BackwardFacts(heap[..], blocks, end, lowest, i);
      var pmem := heap[mem].prev;
      if pmem != mem && !heap[pmem].used {
        assert pmem == blocks[i - 1].at;
        lfree := if lfree == mem then pmem else lfree;
        Join(pmem, mem, i - 1);
      }
    }

    /** `plug_holes`: join the free item at `mem` with its free neighbours. */
    method PlugHoles(mem: nat, ghost i: nat)
      requires Consistent() && i < |blocks| - 1 && mem == blocks[i].at && blocks[i].free
      modifies heap, this`lfree, this`blocks
      ensures Consistent() && blocks == Plugged(old(blocks), i)
    {
      PlugForward(mem, i);
      assert blocks[i].free;
      PlugBackward(mem, i);
    }

    /** Cut a free item at `x` off the end of the item at `mem`. */
    method CutItem(mem: nat, x: nat, ghost i: nat)
      requires Consistent() && i < |blocks| - 1 && mem == blocks[i].at && Aligned(x)
      requires mem + HEADER + RT_ALIGN_SIZE <= x && x + HEADER <= blocks[i + 1].at
      requires lowest <= i
      modifies heap, this`blocks
      ensures Consistent() && blocks == Split(old(blocks), i, x)
    {
      TiledIncreasing(blocks, end);
      LastBlock(blocks, end);
      CutLinked(heap[..], blocks, i, x, end);
      SplitTiled(blocks, end, i, x);
      SplitAt(blocks, i, x);
      ghost var h, bs := heap[..], blocks;
      hide *;
      var next := heap[mem].next;
      heap[x] := Header(false, next, mem);
      heap[mem] := heap[mem].(next := x);
      if next != end {
        heap[next] := heap[next].(prev := x);
      }
      CutIs(h, mem, x, end, heap[..]);
      blocks := Split(blocks, i, x);
      LowestKept(bs, blocks, lowest, i);
    }

    /** The rounding at the head of `rt_smem_alloc`. */
    static function RequestSize(size: nat): (r: nat)
      requires size < WORD
      ensures Aligned(r) && r >= MIN_SIZE_ALIGNED && r >= Rounded(size)
      ensures size + RT_ALIGN_SIZE - 1 < WORD ==> size <= r && (r == MIN_SIZE_ALIGNED || r < size + RT_ALIGN_SIZE)
      ensures size + RT_ALIGN_SIZE - 1 >= WORD ==> r == MIN_SIZE_ALIGNED
    {
      if Rounded(size) < MIN_SIZE_ALIGNED then MIN_SIZE_ALIGNED else Rounded(size)
    }

    /** What is never granted: size zero, more than the whole heap, and more than any free block. */
    static ghost predicate Lacks(bs: seq<Block>, limit: nat, size: nat)
      requires size < WORD
    {
      size == 0 || RequestSize(size) > limit || NoFit(bs, RequestSize(size))
    }

    /** The inner loop of `rt_smem_alloc`: move `lfree` to the next free item, or to the end. */
    method AdvanceLowest()
      requires heap.Length == end + 1 && data.Length == end < WORD
      requires Tiled(blocks, end) && Linked(heap[..], blocks)
      requires lowest < |blocks| && lfree == blocks[lowest].at && forall j :: 0 <= j < lowest ==> !blocks[j].free
      modifies this`lfree, this`lowest
      ensures Consistent()
    {
      hide Tiled, Linked;
      LastBlock(blocks, end);
      ghost var h := heap[..];
      At(h, blocks, lowest);
      while heap[lfree].used && lfree != end
        modifies this`lfree, this`lowest
        invariant lowest < |blocks| && lfree == blocks[lowest].at && lfree < heap.Length
        invariant forall j :: 0 <= j < lowest ==> !blocks[j].free
        decreases |blocks| - lowest
      {
        EndIsLast(blocks, end, lowest);
        At(h, blocks, lowest);
        At(h, blocks, lowest + 1);
        lfree := heap[lfree].next;
        lowest := lowest + 1;
      }
      At(h, blocks, lowest);
      EndIsLast(blocks, end, lowest);
    }

    /** Mark the item at `mem` used, and move `lfree` on if it was the lowest free one. */
    method Occupy(mem: nat, ghost i: nat)
      requires Consistent() && i < |blocks| - 1 && mem == blocks[i].at && blocks[i].free
      requires mem + HEADER + RT_ALIGN_SIZE <= blocks[i + 1].at
      modifies heap, this`lfree, this`blocks, this`lowest
      ensures Consistent() && blocks == Mark(old(blocks), i, false)
    {
      hide Tiled, Linked, LowestFree, Increasing;
      TiledIncreasing(blocks, end);
      MarkLinked(heap[..], blocks, i, false);
      MarkTiled(blocks, end, i, false);
      LowestAtMost(blocks, end, lowest, i);
      OccupyLowest(blocks, end, lowest, i);
      heap[mem] := heap[mem].(used := true);
      blocks := Mark(blocks, i, false);
      if mem == lfree {
        AdvanceLowest();
      }
    }

    lemma MakeValid(end: nat)
      requires end == this.end && Consistent() && Coalesced(blocks) && used == Used(blocks) && used <= max
      ensures Valid()
    {}

    lemma Open()
      requires Valid()
      ensures Consistent() && Coalesced(blocks) && used == Used(blocks) && used <= max
      ensures heap.Length == end + 1 && Tiled(blocks, end) && Linked(heap[..], blocks)
      ensures LowestFree(blocks, lowest) && Canonical(blocks, end) && end < WORD
    {}

    lemma OpenLive(rmem: nat, i: nat)
      requires IsLive(rmem, i)
      ensures i + 1 < |blocks| && !blocks[i].free && rmem == blocks[i].at + HEADER
    {}

    /** The bookkeeping of `used` and, when it grows, of its running maximum. */
    method Account(change: int)
      requires Consistent()
      modifies this`used, this`max
      ensures Consistent() && used == old(used) + change
      ensures max == if old(max) < used && 0 < change then used else old(max)
    {
      used := used + change;
      if max < used && 0 < change {
        max := used;
      }
    }

    method CutAndOccupy(ptr: nat, ptr2: nat, ghost i: nat)
      requires Consistent() && i < |blocks| - 1 && ptr == blocks[i].at && blocks[i].free && Aligned(ptr2)
      requires ptr + HEADER + RT_ALIGN_SIZE <= ptr2 && ptr2 + HEADER <= blocks[i + 1].at
      modifies heap, this`lfree, this`blocks, this`lowest
      ensures Consistent() && i < |Split(old(blocks), i, ptr2)|
      ensures blocks == Mark(Split(old(blocks), i, ptr2), i, false)
    {
      hide Tiled, Linked, Split, LowestFree;
      LowestAtMost(blocks, end, lowest, i);
      SplitAt(blocks, i, ptr2);
      CutItem(ptr, ptr2, i);
      Occupy(ptr, i);
    }

    /** The body of the search loop, once a fitting item is found. */
    method Carve(ptr: nat, size: nat, ghost i: nat)
      requires Valid() && i < |blocks| - 1 && ptr == blocks[i].at && blocks[i].free && Payload(blocks, i) >= size
      requires Aligned(size) && size >= MIN_SIZE_ALIGNED
      modifies heap, this`lfree, this`blocks, this`lowest, this`used, this`max
      ensures Valid() && blocks == Allocated(old(blocks), i, size)
      ensures max == if old(max) < used then used else old(max)
    {
      hide *;
      ghost var bs := blocks;
      Open();
      PayloadIs(blocks, i);
      CarveReady(heap[..], blocks, end, i, size);
      var extent := heap[ptr].next - ptr;
      if extent - HEADER >= size + HEADER + MIN_SIZE_ALIGNED {
        CutAndOccupy(ptr, ptr + HEADER + size, i);
        Account(size + HEADER);
      } else {
        Occupy(ptr, i);
        Account(extent);
      }
      MakeValid(end);
    }

    /** The search loop of `rt_smem_alloc`: it starts at `lfree` and stops early, yet misses nothing. */
    method Search(request: nat) returns (found: bool, ptr: int, ghost k: nat)
      requires Valid() && request <= memSizeAligned
      ensures found ==> FirstFit(blocks, k, request) && ptr == blocks[k].at
      ensures !found ==> NoFit(blocks, request)
    {
      ptr := lfree;
      k := lowest;
      LastBlock(blocks, end);
      while ptr <= memSizeAligned - request
        invariant k < |blocks| && ptr == blocks[k].at
        invariant forall j :: 0 <= j < k ==> !(blocks[j].free && Payload(blocks, j) >= request)
        decreases |blocks| - k
      {
        At(heap[..], blocks, k);
        if !heap[ptr].used && heap[ptr].next - (ptr + HEADER) >= request {
          return true, ptr, k;
        }
        ptr := heap[ptr].next;
        k := k + 1;
      }
      LateBlocksTooSmall(blocks, end, k, request);
      found := false;
    }

    /** `rt_smem_alloc`: exact first fit. */
    method Alloc(size: nat) returns (r: Option<nat>, ghost i: nat)
      requires Valid() && size < WORD
      modifies heap, this`lfree, this`blocks, this`lowest, this`used, this`max
      ensures Valid()
      ensures r == None <==> Lacks(old(blocks), memSizeAligned, size)
      ensures r == None ==> blocks == old(blocks) && used == old(used) && max == old(max) && heap[..] == old(heap[..])
      ensures r.Some? ==>
        && i + 1 < |old(blocks)| && r.value == old(blocks)[i].at + HEADER
        && FirstFit(old(blocks), i, RequestSize(size))
        && blocks == Allocated(old(blocks), i, RequestSize(size))
        && max == if old(max) < used then used else old(max)
      ensures forall n: nat :: LeastCover(n, size) ==>
        && (r == None <==>
              size == 0 || n > memSizeAligned
              || forall j :: 0 <= j < |old(blocks)| - 1 && old(blocks)[j].free ==> Payload(old(blocks), j) < n)
        && (r.Some? ==> Gets(old(blocks), blocks, i, n) && r.value == blocks[i].at + HEADER)
    {
      hide Gets, LeastCover, Valid, Allocated, RequestSize;
      OnlyLeast(size);
      i := 0;
      if size == 0 {
        return None, 0;
      }
      var request := RequestSize(size);
      if request > memSizeAligned {
        return None, 0;
      }
      var found, ptr;
      found, ptr, i := Search(request);
      if !found {
        return None, i;
      }
      assert FirstFit(blocks, i, request);
      GetsFirst(blocks, i, request);
      Carve(ptr, request, i);
      r := Some(ptr + HEADER);
    }

    /** `rmem` is the payload of block `i`, which is live. */
    ghost predicate IsLive(rmem: nat, i: nat)
      reads this
    {
      i + 1 < |blocks| && !blocks[i].free && rmem == blocks[i].at + HEADER
    }

    /** Mark the item at `mem` free and pull `lfree` down to it if it is now the lowest. */
    method Vacate(mem: nat, ghost i: nat)
      requires Consistent() && i < |blocks| - 1 && mem == blocks[i].at && !blocks[i].free
      modifies heap, this`lfree, this`blocks, this`lowest
      ensures Consistent() && blocks == Mark(old(blocks), i, true)
    {
      hide Tiled, Linked, LowestFree, Increasing;
      TiledIncreasing(blocks, end);
      MarkLinked(heap[..], blocks, i, true);
      MarkTiled(blocks, end, i, true);
      VacateLowest(blocks, end, lowest, i);
      heap[mem] := heap[mem].(used := false);
      blocks := Mark(blocks, i, true);
      if mem < lfree {
        lfree := mem;
        lowest := i;
      }
    }

    /** `rt_smem_free`. */
    method Free(rmem: Option<nat>, ghost i: nat)
      requires Valid() && (rmem.Some? ==> IsLive(rmem.value, i))
      modifies heap, this`lfree, this`blocks, this`lowest, this`used
      ensures Valid()
      ensures blocks == if rmem.Some? then Freed(old(blocks), i) else old(blocks)
    {
      if rmem == None {
        return;
      }
      var mem := rmem.value - HEADER;
      FreedCanonical(blocks, end, i);
      FreedLive(blocks, end, i, 0, 0);
      At(heap[..], blocks, i);
      ghost var bs := blocks;
      hide Tiled, Linked, LowestFree, Plugged, Coalesced, Used;
      used := used - (heap[mem].next - mem);
      Vacate(mem, i);
      PlugHoles(mem, i);
    }

    /** `rt_memcpy` between two payloads. */
    method Copy(dst: nat, src: nat, n: nat)
      requires dst + n <= data.Length && src + n <= data.Length && (dst + n <= src || src + n <= dst)
      modifies data
      ensures CopiedOnly(old(data[..]), data[..], dst, src, n)
    {
      for j := 0 to n
        invariant forall b {:trigger data[b]} :: dst <= b < dst + j ==> data[b] == old(data[b - dst + src])
        invariant forall b :: 0 <= b < data.Length && !(dst <= b < dst + j) ==> data[b] == old(data[b])
      {
        data[dst + j] := data[src + j];
      }
    }

    method CopyAndFree(rmem: nat, dst: nat, n: nat, ghost j: nat)
      requires Valid() && IsLive(rmem, j)
      requires dst + n <= data.Length && rmem + n <= data.Length && (dst + n <= rmem || rmem + n <= dst)
      modifies heap, data, this`lfree, this`blocks, this`lowest, this`used
      ensures Valid() && blocks == Freed(old(blocks), j)
      ensures CopiedOnly(old(data[..]), data[..], dst, rmem, n)
    {
      assert heap as object != data;
      assert j < |blocks|;
      hide *;
      Copy(dst, rmem, n);
      ghost var e := data[..];
      Free(Some(rmem), j);
      assert data[..] == e;
    }

    /** The "expand memory" part of `rt_smem_realloc`: allocate, copy, free. */
    method Move(rmem: nat, newsize: nat, ghost i: nat) returns (r: Option<nat>, ghost k: nat)
      requires Valid() && IsLive(rmem, i) && 0 < newsize <= memSizeAligned && Aligned(newsize)
      modifies heap, data, this`lfree, this`blocks, this`lowest, this`used, this`max
      ensures Valid()
      ensures r == None <==> Lacks(old(blocks), memSizeAligned, newsize)
      ensures r == None ==> blocks == old(blocks) && used == old(used) && max == old(max) && data[..] == old(data[..])
      ensures r.Some? ==>
        && FirstFit(old(blocks), k, RequestSize(newsize)) && r.value == old(blocks)[k].at + HEADER
        && blocks == Relocated(old(blocks), i, k, RequestSize(newsize))
        && max == Max(old(max), Used(Allocated(old(blocks), k, RequestSize(newsize))))
        && CopiedOnly(old(data[..]), data[..], r.value, rmem, Min(Payload(old(blocks), i), newsize))
    {
      hide *;
      ghost var bs, d := blocks, data[..];
      MoveFacts(rmem, newsize, i);
      var mem := rmem - HEADER;
      var size := heap[mem].next - mem - HEADER;
      r, k := Alloc(newsize);
      assert data[..] == d;
      if r.Some? {
        UsedNow();
        MaxIs(old(max), used);
        MoveReady(bs, end, i, k, RequestSize(newsize));
        MinIs(size, newsize);
        NowLive(rmem, StillAt(bs, i, k, RequestSize(newsize)));
        CopyAndFree(rmem, r.value, if size < newsize then size else newsize, StillAt(bs, i, k, RequestSize(newsize)));
      }
    }

    lemma MoveFacts(rmem: nat, newsize: nat, i: nat)
      requires Valid() && IsLive(rmem, i) && 0 < newsize <= memSizeAligned && Aligned(newsize)
      ensures newsize < WORD && Canonical(blocks, end) && data.Length == end && heap as object != data
      ensures i + 1 < |blocks| && !blocks[i].free && rmem == blocks[i].at + HEADER
      ensures 0 <= rmem - HEADER < heap.Length
      ensures heap[rmem - HEADER].next - (rmem - HEADER) - HEADER == Payload(blocks, i)
      ensures Aligned(RequestSize(newsize)) && RequestSize(newsize) >= MIN_SIZE_ALIGNED
      ensures RequestSize(newsize) >= newsize
    {
      At(heap[..], blocks, i);
      LiveSpan(blocks, end, i);
      AlignedRequest(newsize);
    }

    /** The split in `rt_smem_realloc`. */
    method Shrink(rmem: nat, newsize: nat, ghost i: nat)
      requires Valid() && IsLive(rmem, i)
      requires Aligned(newsize) && 0 < newsize && newsize + HEADER + MIN_SIZE < Payload(blocks, i)
      modifies heap, this`lfree, this`blocks, this`lowest, this`used, this`max
      ensures Valid() && max == old(max) && blocks == Shrunk(old(blocks), i, newsize)
    {
      hide *;
      ShrinkFacts(rmem, newsize, i);
      var mem := rmem - HEADER;
      var size := heap[mem].next - mem - HEADER;
      CutAndPlug(mem, mem + HEADER + newsize, i);
      Account(newsize - size);
      MakeValid(end);
    }

    lemma UsedNow()
      requires Valid()
      ensures used == Used(blocks)
    {}

    lemma ShrinkFacts(rmem: nat, newsize: nat, i: nat)
      requires Valid() && IsLive(rmem, i)
      requires Aligned(newsize) && 0 < newsize && newsize + HEADER + MIN_SIZE < Payload(blocks, i)
      ensures i < |blocks| - 1 && rmem == blocks[i].at + HEADER && !blocks[i].free && blocks[i].at < heap.Length
      ensures var x := rmem + newsize;
        && Consistent() && used == Used(blocks) <= max && Aligned(x)
        && blocks[i].at + HEADER + RT_ALIGN_SIZE <= x && x + HEADER <= blocks[i + 1].at
        && heap[blocks[i].at].next == blocks[i + 1].at && newsize <= blocks[i + 1].at - rmem
        && i + 1 < |Split(blocks, i, x)| && Shrunk(blocks, i, newsize) == Plugged(Split(blocks, i, x), i + 1)
      ensures var r := Shrunk(blocks, i, newsize);
        Coalesced(r) && r != [] && Used(r) == Used(blocks) - (blocks[i + 1].at - rmem - newsize)
    {
      hide *;
      Open();
      OpenLive(rmem, i);
      PayloadIs(blocks, i);
      ShrinkReady(heap[..], blocks, end, lowest, i, newsize);
    }

    method CutAndPlug(mem: nat, ptr2: nat, ghost i: nat)
      requires Consistent() && i < |blocks| - 1 && mem == blocks[i].at && !blocks[i].free && Aligned(ptr2)
      requires mem + HEADER + RT_ALIGN_SIZE <= ptr2 && ptr2 + HEADER <= blocks[i + 1].at
      modifies heap, this`lfree, this`blocks, this`lowest
      ensures Consistent() && i + 1 < |Split(old(blocks), i, ptr2)|
      ensures blocks == Plugged(Split(old(blocks), i, ptr2), i + 1)
    {
      ShrinkLowest(blocks, end, lowest, i, ptr2);
      SplitAt(blocks, i, ptr2);
      hide *;
      CutUsed(mem, ptr2, i);
      PlugHoles(ptr2, i + 1);
    }

    /** The header writes of a shrink, and `lfree` pulled down to the new free item if that is lower. */
    method CutUsed(mem: nat, ptr2: nat, ghost i: nat)
      requires Consistent() && i < |blocks| - 1 && mem == blocks[i].at && !blocks[i].free && Aligned(ptr2)
      requires mem + HEADER + RT_ALIGN_SIZE <= ptr2 && ptr2 + HEADER <= blocks[i + 1].at
      requires LowestFree(Split(blocks, i, ptr2), if ptr2 < blocks[lowest].at then i + 1 else lowest)
      requires ptr2 < blocks[lowest].at || lowest <= i
      modifies heap, this`lfree, this`blocks, this`lowest
      ensures Consistent() && blocks == Split(old(blocks), i, ptr2)
    {
      hide Tiled, Linked, LowestFree, Split, Cut, Increasing, Aligned;
      TiledIncreasing(blocks, end);
      LastBlock(blocks, end);
      CutLinked(heap[..], blocks, i, ptr2, end);
      SplitTiled(blocks, end, i, ptr2);
      SplitAt(blocks, i, ptr2);
      ghost var h := heap[..];
      var next := heap[mem].next;
      heap[ptr2] := Header(false, next, mem);
      heap[mem] := heap[mem].(next := ptr2);
      if next != end {
        heap[next] := heap[next].(prev := ptr2);
      }
      CutIs(h, mem, ptr2, end, heap[..]);
      blocks := Split(blocks, i, ptr2);
      if ptr2 < lfree {
        lfree := ptr2;
        lowest := i + 1;
      }
    }

    lemma ResizeFacts(rmem: nat, n: nat, i: nat)
      requires Valid() && IsLive(rmem, i) && n <= memSizeAligned
      ensures n < WORD && i < |blocks| - 1 && 0 <= rmem - HEADER < heap.Length && heap as object != data
      ensures heap[rmem - HEADER].next - (rmem - HEADER) - HEADER == Payload(blocks, i)
    {
      At(heap[..], blocks, i);
    }

    /** `rt_smem_realloc` of a live block to a size that is neither too large nor zero. */
    method Resize(rmem: nat, n: nat, ghost i: nat) returns (r: Option<nat>, ghost k: nat)
      requires Valid() && IsLive(rmem, i) && Aligned(n) && 0 < n <= memSizeAligned
      modifies heap, data, this`lfree, this`blocks, this`lowest, this`used, this`max
      ensures Valid() && n < WORD
      ensures var size := Payload(old(blocks), i);
        if size == n then r == Some(rmem) && blocks == old(blocks) && max == old(max) && data[..] == old(data[..])
        else if n + HEADER + MIN_SIZE < size then
          r == Some(rmem) && blocks == Shrunk(old(blocks), i, n) && max == old(max) && data[..] == old(data[..])
        else if Lacks(old(blocks), memSizeAligned, n) then r == None && blocks == old(blocks) && max == old(max)
          && data[..] == old(data[..])
        else
          && FirstFit(old(blocks), k, RequestSize(n)) && r == Some(old(blocks)[k].at + HEADER)
          && blocks == Relocated(old(blocks), i, k, RequestSize(n))
          && max == Max(old(max), Used(Allocated(old(blocks), k, RequestSize(n))))
          && CopiedOnly(old(data[..]), data[..], r.value, rmem, Min(size, n))
    {
      hide *;
      k := 0;
      ResizeFacts(rmem, n, i);
      ghost var d := data[..];
      var size := heap[rmem - HEADER].next - (rmem - HEADER) - HEADER;
      if size == n {
        r := Some(rmem);
      } else if n + HEADER + MIN_SIZE < size {
        Shrink(rmem, n, i);
        r := Some(rmem);
        assert data[..] == d;
      } else {
        r, k := Move(rmem, n, i);
      }
    }

    /** `rt_smem_realloc`. */
    method Realloc(rmem: Option<nat>, newsize: nat, ghost i: nat) returns (r: Option<nat>, ghost k: nat)
      requires Valid() && newsize < WORD && (rmem.Some? ==> IsLive(rmem.value, i))
      modifies heap, data, this`lfree, this`blocks, this`lowest, this`used, this`max
      ensures Valid()
      ensures Rounded(newsize) > memSizeAligned ==>
        r == None && blocks == old(blocks) && max == old(max) && data[..] == old(data[..])
      ensures Rounded(newsize) == 0 ==>
        && r == None && max == old(max) && data[..] == old(data[..])
        && blocks == if rmem.Some? then Freed(old(blocks), i) else old(blocks)
      ensures 0 < Rounded(newsize) <= memSizeAligned && rmem == None ==>
        && data[..] == old(data[..])
        && max == (if r.Some? then Max(old(max), Used(blocks)) else old(max))
        && if Lacks(old(blocks), memSizeAligned, Rounded(newsize)) then r == None && blocks == old(blocks)
           else FirstFit(old(blocks), k, RequestSize(Rounded(newsize)))
                && r == Some(old(blocks)[k].at + HEADER)
                && blocks == Allocated(old(blocks), k, RequestSize(Rounded(newsize)))
      ensures 0 < Rounded(newsize) <= memSizeAligned && rmem.Some? ==>
        var n, size := Rounded(newsize), Payload(old(blocks), i);
        if size == n then r == rmem && blocks == old(blocks) && max == old(max) && data[..] == old(data[..])
        else if n + HEADER + MIN_SIZE < size then
          r == rmem && blocks == Shrunk(old(blocks), i, n) && max == old(max) && data[..] == old(data[..])
        else if Lacks(old(blocks), memSizeAligned, n) then r == None && blocks == old(blocks) && max == old(max)
          && data[..] == old(data[..])
        else
          && FirstFit(old(blocks), k, RequestSize(n)) && r == Some(old(blocks)[k].at + HEADER)
          && blocks == Relocated(old(blocks), i, k, RequestSize(n))
          && max == Max(old(max), Used(Allocated(old(blocks), k, RequestSize(n))))
          && CopiedOnly(old(data[..]), data[..], r.value, rmem.value, Min(size, n))
    {
      hide *;
      k := 0;
      r := None;
      ReallocFacts(newsize);
      var n := Rounded(newsize);
      ghost var d := data[..];
      if n > memSizeAligned {
        return;
      } else if n == 0 {
        Free(rmem, i);
        assert data[..] == d;
      } else if rmem == None {
        r, k := Alloc(n);
        assert data[..] == d;
        UsedNow();
        MaxIs(old(max), used);
      } else {
        r, k := Resize(rmem.value, n, i);
      }
    }

    lemma ReallocFacts(newsize: nat)
      requires Valid() && newsize < WORD
      ensures end < WORD && end == memSizeAligned + HEADER && Aligned(Rounded(newsize)) && heap as object != data
    {}

    lemma NowLive(rmem: nat, j: nat)
      requires j + 1 < |blocks| && !blocks[j].free && rmem == blocks[j].at + HEADER
      ensures IsLive(rmem, j)
    {}
  }

  /**
   * How `rt_smem_init` cuts a region to size, in words: behind the descriptor and up to the last aligned address, less
   * two headers; or nothing when that is not there.
   */
  function HeapSize(begin: nat, size: nat, descriptor: nat): Option<nat>
    requires begin < WORD && size < WORD && descriptor < WORD
  {
    HeapBetween((Rounded(begin) + descriptor) % WORD, RoundedDown((begin + size) % WORD))
  }

  function HeapBetween(start: nat, end: nat): Option<nat>
    requires start < WORD
  {
    if end > 2 * HEADER && end - 2 * HEADER >= start then Some((end - Rounded(start) - 2 * HEADER) % WORD) else None
  }

  function RoundedDown(x: nat): (e: nat)
    ensures e <= x < e + RT_ALIGN_SIZE && Aligned(e)
  {
    x - x % RT_ALIGN_SIZE
  }

  /**
   * A region inside the address space is refused exactly when it cannot hold descriptor and headers; else all of it
   * lies inside.
   */
  lemma HeapInRegion(begin: nat, size: nat, descriptor: nat)
    requires begin + size < WORD && 0 < descriptor && begin + descriptor + 2 * RT_ALIGN_SIZE < WORD
    ensures var start := Rounded(Rounded(begin) + descriptor);
      match HeapSize(begin, size, descriptor)
      case None => start + 2 * HEADER > begin + size
      case Some(n) =>
        && Aligned(n) && Aligned(start) && n + HEADER < WORD && begin + descriptor <= start
        && start + n + 2 * HEADER <= begin + size < start + n + 2 * HEADER + RT_ALIGN_SIZE
  {
    hide Rounded, RoundedDown, HeapBetween;
    RoundedFits(begin);
    RoundedFits(Rounded(begin) + descriptor);
    HeapFits(Rounded(begin) + descriptor, begin + size);
  }

  lemma HeapFits(start: nat, x: nat)
    requires 0 < start && start + RT_ALIGN_SIZE <= WORD && x < WORD
    ensures match HeapBetween(start, RoundedDown(x))
      case None => Rounded(start) + 2 * HEADER > x
      case Some(n) =>
        && Aligned(n) && n + HEADER < WORD
        && Rounded(start) + n + 2 * HEADER <= x < Rounded(start) + n + 2 * HEADER + RT_ALIGN_SIZE
  {
    hide Rounded, RoundedDown;
    RoundedFits(start);
    var end := RoundedDown(x);
    if end > 2 * HEADER && end - 2 * HEADER >= start { NoneBetween(end - 2 * HEADER, start, Rounded(start)); }
  }

  /** No multiple lies between a number and its rounding. */
  lemma NoneBetween(a: int, x: nat, up: nat)
    requires a % RT_ALIGN_SIZE == 0 && up % RT_ALIGN_SIZE == 0 && x <= up < x + RT_ALIGN_SIZE && a >= x
    ensures a >= up && (a - up) % RT_ALIGN_SIZE == 0
  {}

  lemma RoundedFits(x: nat)
    requires x + RT_ALIGN_SIZE <= WORD
    ensures Aligned(Rounded(x)) && x <= Rounded(x) < x + RT_ALIGN_SIZE
  {}

  /** A request is rounded up to something that holds it exactly when the rounding does not wrap. */
  lemma RequestCovers(size: nat)
    requires size < WORD
    ensures size <= SmallMem.RequestSize(size) <==> size + RT_ALIGN_SIZE - 1 < WORD
  {
    RoundingWraps(size);
  }

  /** The size that is looked for is the least that covers the request. */
  lemma OnlyLeast(size: nat)
    requires size < WORD
    ensures forall n: nat :: LeastCover(n, size) <==> n == SmallMem.RequestSize(size)
  {
    hide SmallMem.RequestSize;
    var r := SmallMem.RequestSize(size);
    assert Covers(r, size);
    forall m: nat | Covers(m, size) ensures r <= m {
      if m < r && size + RT_ALIGN_SIZE - 1 < WORD { Multiples(m, r); }
    }
  }

  lemma Multiples(a: nat, b: nat)
    requires Aligned(a) && Aligned(b) && a < b
    ensures a + RT_ALIGN_SIZE <= b
  {}

  lemma AlignedRequest(size: nat)
    requires size < WORD && size + RT_ALIGN_SIZE - 1 < WORD && Aligned(size)
    ensures Rounded(size) == size && SmallMem.RequestSize(size) >= size
  {}

  lemma MaxIs(a: int, b: int)
    ensures Max(a, b) == if a < b then b else a
  {}

  lemma MinIs(a: int, b: int)
    ensures Min(a, b) == if a < b then a else b
  {}
}
