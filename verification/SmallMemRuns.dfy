/** Whole runs of the small-memory allocator, and what is left when everything has been freed. */
module SmallMemRuns {
  import opened Common
  import opened SmallMemBlocks
  import opened SmallMemAccounting
  import opened SmallMem

  /** `p` is the payload address of a live block. */
  ghost predicate LivePointer(bs: seq<Block>, p: nat) {
    exists len: int :: LivePayload(bs, p, len)
  }

  ghost predicate LivePayload(bs: seq<Block>, p: nat, len: int) {
    p >= HEADER && LiveAt(bs, p - HEADER, len)
  }

  lemma LiveIndex(bs: seq<Block>, p: nat) returns (i: nat)
    requires LivePointer(bs, p)
    ensures i + 1 < |bs| && !bs[i].free && p == bs[i].at + HEADER
  {
    var len: int :| LivePayload(bs, p, len);
    i :| 0 <= i < |bs| - 1 && LiveBlock(bs, i, p - HEADER, len);
  }

  /** A pointer that is held is the payload of a block in use. */
  lemma LiveOf(owned: set<nat>, bs: seq<Block>, p: nat) returns (i: nat)
    requires Holds(owned, bs) && p in owned
    ensures i + 1 < |bs| && !bs[i].free && p == bs[i].at + HEADER
  {
    i := LiveIndex(bs, p);
  }

  lemma IndexLive(bs: seq<Block>, i: nat)
    requires i + 1 < |bs| && !bs[i].free
    ensures LivePointer(bs, bs[i].at + HEADER)
  {
    assert LiveBlock(bs, i, bs[i].at, Payload(bs, i));
    assert LivePayload(bs, bs[i].at + HEADER, Payload(bs, i));
  }

  lemma AllocatedPointers(bs: seq<Block>, end: nat, i: nat, size: nat, p: nat)
    requires Tiled(bs, end) && i < |bs| - 1 && bs[i].free && Payload(bs, i) >= size
    requires Aligned(size) && size >= MIN_SIZE_ALIGNED
    ensures LivePointer(Allocated(bs, i, size), p) <==> p == bs[i].at + HEADER || LivePointer(bs, p)
  {
    hide LiveAt, Allocated, Tiled, Used, Aligned;
    AllocatedLive(bs, end, i, size, 0, 0);
    var r := Allocated(bs, i, size);
    forall len: int
      ensures LivePayload(r, p, len) <==>
        if p == bs[i].at + HEADER then len == Payload(r, i) else LivePayload(bs, p, len)
    {
      if p >= HEADER { AllocatedLive(bs, end, i, size, p - HEADER, len); }
    }
    assert p == bs[i].at + HEADER ==> LivePayload(r, p, Payload(r, i));
  }

  lemma FreedPointers(bs: seq<Block>, end: nat, i: nat, p: nat)
    requires Tiled(bs, end) && i < |bs| - 1 && !bs[i].free
    ensures LivePointer(Freed(bs, i), p) <==> p != bs[i].at + HEADER && LivePointer(bs, p)
  {
    hide LiveAt, Freed, Tiled, Used;
    forall len: int
      ensures LivePayload(Freed(bs, i), p, len) <==> p != bs[i].at + HEADER && LivePayload(bs, p, len)
    {
      if p >= HEADER { FreedLive(bs, end, i, p - HEADER, len); }
    }
  }

  lemma ShrunkPointers(bs: seq<Block>, end: nat, i: nat, size: nat, p: nat)
    requires Tiled(bs, end) && i < |bs| - 1 && !bs[i].free
    ensures LivePointer(Shrunk(bs, i, size), p) <==> LivePointer(bs, p)
  {
    hide LiveAt, Shrunk, Tiled, Used;
    IndexLive(bs, i);
    var r := Shrunk(bs, i, size);
    forall len: int
      ensures LivePayload(r, p, len) <==> if p == bs[i].at + HEADER then len == size else LivePayload(bs, p, len)
    {
      if p >= HEADER { ShrunkLive(bs, end, i, size, p - HEADER, len); }
    }
    assert p == bs[i].at + HEADER ==> LivePayload(r, p, size);
  }

  datatype Op = Allocate(size: nat) | Release(p: nat) | Resize(block: Option<nat>, size: nat)

  /** The pointers a client holds are exactly the live payloads. */
  ghost predicate Holds(owned: set<nat>, bs: seq<Block>) {
    forall p: nat :: p in owned <==> LivePointer(bs, p)
  }

  lemma FitParts(bs: seq<Block>, end: nat, i: nat, size: nat)
    requires Canonical(bs, end) && FirstFit(bs, i, size)
    ensures Tiled(bs, end) && i < |bs| - 1 && bs[i].free && Payload(bs, i) >= size
  {}

  lemma HoldsAllocated(owned: set<nat>, bs: seq<Block>, end: nat, i: nat, size: nat)
    requires Holds(owned, bs) && Canonical(bs, end) && FirstFit(bs, i, size)
    requires Aligned(size) && size >= MIN_SIZE_ALIGNED
    ensures i + 1 < |bs| && Holds(owned + {bs[i].at + HEADER}, Allocated(bs, i, size))
  {
    FitParts(bs, end, i, size);
    hide LivePointer, Canonical, FirstFit, Allocated, Tiled, Payload;
    forall p: nat ensures p in owned + {bs[i].at + HEADER} <==> LivePointer(Allocated(bs, i, size), p) {
      AllocatedPointers(bs, end, i, size, p);
    }
  }

  lemma HoldsFreed(owned: set<nat>, bs: seq<Block>, end: nat, i: nat)
    requires Holds(owned, bs) && Canonical(bs, end) && i + 1 < |bs| && !bs[i].free
    ensures Holds(owned - {bs[i].at + HEADER}, Freed(bs, i))
  {
    hide LivePointer, Freed, Tiled;
    forall p: nat ensures p in owned - {bs[i].at + HEADER} <==> LivePointer(Freed(bs, i), p) {
      FreedPointers(bs, end, i, p);
    }
  }

  lemma HoldsShrunk(owned: set<nat>, bs: seq<Block>, end: nat, i: nat, size: nat)
    requires Holds(owned, bs) && Canonical(bs, end) && i + 1 < |bs| && !bs[i].free
    ensures Holds(owned, Shrunk(bs, i, size))
  {
    hide LivePointer, Shrunk, Tiled;
    forall p: nat ensures p in owned <==> LivePointer(Shrunk(bs, i, size), p) {
      ShrunkPointers(bs, end, i, size, p);
    }
  }

  lemma HoldsMoved(owned: set<nat>, bs: seq<Block>, end: nat, i: nat, k: nat, size: nat)
    requires Holds(owned, bs) && Canonical(bs, end) && i + 1 < |bs| && !bs[i].free && FirstFit(bs, k, size)
    requires Aligned(size) && size >= MIN_SIZE_ALIGNED
    ensures k + 1 < |bs| && Holds(owned - {bs[i].at + HEADER} + {bs[k].at + HEADER}, Relocated(bs, i, k, size))
  {
    hide LivePointer, Tiled, Payload, Allocated, Freed, StillAt, Holds, LiveAt;
    FitParts(bs, end, k, size);
    HoldsAllocated(owned, bs, end, k, size);
    AllocatedCanonical(bs, end, k, size);
    StillThere(bs, end, i, k, size);
    MovedLive(bs, end, i, k, size, 0, 0);
    HoldsFreed(owned + {bs[k].at + HEADER}, Allocated(bs, k, size), end, StillAt(bs, i, k, size));
    var src, dst := bs[i].at + HEADER, bs[k].at + HEADER;
    assert owned + {dst} - {src} == owned - {src} + {dst};
  }

  /** What a client holds after `Realloc(p, ...)` returned `r`. */
  function After(owned: set<nat>, p: Option<nat>, rounded: nat, r: Option<nat>): set<nat> {
    if p == None then (if r == None then owned else owned + {r.value})
    else if rounded == 0 then owned - {p.value}
    else if r == None then owned
    else owned - {p.value} + {r.value}
  }

  lemma HoldsSame(owned: set<nat>, bs: seq<Block>, i: nat)
    requires Holds(owned, bs) && i + 1 < |bs| && !bs[i].free
    ensures owned - {bs[i].at + HEADER} + {bs[i].at + HEADER} == owned
  {
    IndexLive(bs, i);
  }

  // ---- What one call does ----

  /** `Alloc`: the first block that fits, or nothing when none does. */
  ghost predicate Allocates(bs: seq<Block>, size: nat, limit: nat, r: Option<nat>, cs: seq<Block>)
    requires size < WORD
  {
    if SmallMem.Lacks(bs, limit, size) then r == None && cs == bs
    else r.Some? && exists k: nat :: Grants(bs, k, SmallMem.RequestSize(size), r.value, cs)
  }

  ghost predicate Grants(bs: seq<Block>, k: nat, size: nat, r: nat, cs: seq<Block>) {
    FirstFit(bs, k, size) && r == bs[k].at + HEADER && cs == Allocated(bs, k, size)
  }

  /** Block `i` is in use and has its payload at `p`. */
  ghost predicate UsedAt(bs: seq<Block>, i: nat, p: nat) {
    i + 1 < |bs| && !bs[i].free && p == bs[i].at + HEADER
  }

  ghost predicate Frees(bs: seq<Block>, p: nat, cs: seq<Block>) {
    exists i: nat :: UsedAt(bs, i, p) && cs == Freed(bs, i)
  }

  /** The most that is in use before or after a call. */
  ghost function Most(bs: seq<Block>, cs: seq<Block>): int
    requires bs != [] && cs != []
  {
    Max(Used(bs), Used(cs))
  }

  /** What a `Realloc` makes of the heap, and the most that is in use meanwhile. */
  datatype Change = Change(blocks: seq<Block>, peak: int)

  ghost predicate Settled(bs: seq<Block>, n: Change) {
    bs != [] && n.blocks != [] && n.peak == Most(bs, n.blocks)
  }

  /** `Realloc` of the block in use at `p` to `n` bytes, rounded up. */
  ghost predicate Resizes(bs: seq<Block>, p: nat, n: nat, limit: nat, r: Option<nat>, c: Change)
    requires 0 < n < WORD
  {
    exists i: nat :: UsedAt(bs, i, p) && ResizesBlock(bs, i, p, n, limit, r, c)
  }

  ghost predicate ResizesBlock(bs: seq<Block>, i: nat, p: nat, n: nat, limit: nat, r: Option<nat>, c: Change)
    requires 0 < n < WORD && i + 1 < |bs|
  {
    if Payload(bs, i) == n then r == Some(p) && c.blocks == bs && Settled(bs, c)
    else if n + HEADER + MIN_SIZE < Payload(bs, i) then r == Some(p) && c.blocks == Shrunk(bs, i, n) && Settled(bs, c)
    else if SmallMem.Lacks(bs, limit, n) then r == None && c.blocks == bs && Settled(bs, c)
    else r.Some? && exists k: nat :: Relocates(bs, i, k, SmallMem.RequestSize(n), r.value, c)
  }

  /** A move peaks with both blocks in use. */
  ghost predicate Relocates(bs: seq<Block>, i: nat, k: nat, size: nat, r: nat, c: Change) {
    && i + 1 < |bs| && FirstFit(bs, k, size) && r == bs[k].at + HEADER && c.blocks == Relocated(bs, i, k, size)
    && c.peak == Used(Allocated(bs, k, size))
  }

  ghost predicate Reallocates(bs: seq<Block>, p: Option<nat>, size: nat, limit: nat, r: Option<nat>, c: Change)
    requires size < WORD
  {
    var n := Rounded(size);
    if n > limit then r == None && c.blocks == bs && Settled(bs, c)
    else if n == 0 then
      r == None && (if p.Some? then Frees(bs, p.value, c.blocks) else c.blocks == bs) && Settled(bs, c)
    else if p == None then Allocates(bs, n, limit, r, c.blocks) && Settled(bs, c)
    else Resizes(bs, p.value, n, limit, r, c)
  }

  /** The heap, what a client holds, and the two counts. */
  datatype Point = Point(blocks: seq<Block>, owned: set<nat>, used: int, max: int)

  /** One call and its result, and the most in use meanwhile; a client passes only pointers that it holds. */
  ghost predicate Next(s: Point, op: Op, limit: nat, r: Option<nat>, peak: int, n: Point)
    requires op.Release? || op.size < WORD
  {
    && n.blocks != [] && n.used == Used(n.blocks) && n.max == Max(s.max, peak)
    && match op
       case Allocate(size) =>
         && Allocates(s.blocks, size, limit, r, n.blocks) && n.owned == After(s.owned, None, size, r)
         && Settled(s.blocks, Change(n.blocks, peak))
       case Release(p) =>
         && r == None && Settled(s.blocks, Change(n.blocks, peak))
         && (if p in s.owned then Frees(s.blocks, p, n.blocks) else n.blocks == s.blocks) && n.owned == s.owned - {p}
       case Resize(p, size) =>
         if p == None || p.value in s.owned then
           && Reallocates(s.blocks, p, size, limit, r, Change(n.blocks, peak))
           && n.owned == After(s.owned, p, Rounded(size), r)
         else
           r == None && n.blocks == s.blocks && n.owned == s.owned && Settled(s.blocks, Change(n.blocks, peak))
  }

  lemma AllocatesHolds(owned: set<nat>, bs: seq<Block>, end: nat, size: nat, limit: nat, r: Option<nat>, cs: seq<Block>)
    requires Holds(owned, bs) && Canonical(bs, end) && size < WORD && Allocates(bs, size, limit, r, cs)
    ensures Holds(if r == None then owned else owned + {r.value}, cs)
  {
    hide Holds, Canonical, FirstFit, SmallMem.Lacks, SmallMem.RequestSize, Allocated;
    if r.Some? {
      var k: nat :| Grants(bs, k, SmallMem.RequestSize(size), r.value, cs);
      RequestAligned(size);
      HoldsAllocated(owned, bs, end, k, SmallMem.RequestSize(size));
    }
  }

  lemma RequestAligned(size: nat)
    requires size < WORD
    ensures Aligned(SmallMem.RequestSize(size)) && SmallMem.RequestSize(size) >= MIN_SIZE_ALIGNED
  {}

  lemma FreesHolds(owned: set<nat>, bs: seq<Block>, end: nat, p: nat, cs: seq<Block>)
    requires Holds(owned, bs) && Canonical(bs, end) && Frees(bs, p, cs)
    ensures Holds(owned - {p}, cs)
  {
    hide Holds, Canonical, Freed;
    var i: nat :| UsedAt(bs, i, p) && cs == Freed(bs, i);
    HoldsFreed(owned, bs, end, i);
  }

  lemma ResizesHolds(owned: set<nat>, bs: seq<Block>, end: nat, p: nat, n: nat, limit: nat, r: Option<nat>, c: Change)
    requires Holds(owned, bs) && Canonical(bs, end) && 0 < n < WORD && Resizes(bs, p, n, limit, r, c)
    ensures Holds(After(owned, Some(p), n, r), c.blocks)
  {
    hide Holds, Canonical, Shrunk, FirstFit, Relocated, Settled, Allocated, Used, SmallMem.Lacks, SmallMem.RequestSize,
      HEADER, MIN_SIZE;
    var i: nat :| UsedAt(bs, i, p) && ResizesBlock(bs, i, p, n, limit, r, c);
    HoldsSame(owned, bs, i);
    if n + HEADER + MIN_SIZE < Payload(bs, i) {
      HoldsShrunk(owned, bs, end, i, n);
    } else if Payload(bs, i) != n && r.Some? {
      var k: nat :| Relocates(bs, i, k, SmallMem.RequestSize(n), r.value, c);
      RequestAligned(n);
      HoldsMoved(owned, bs, end, i, k, SmallMem.RequestSize(n));
    }
  }

  /** After every call the client holds exactly the live payloads again. */
  lemma NextHolds(s: Point, end: nat, op: Op, limit: nat, r: Option<nat>, peak: int, n: Point)
    requires Holds(s.owned, s.blocks) && Canonical(s.blocks, end) && (op.Release? || op.size < WORD)
    requires Next(s, op, limit, r, peak, n)
    ensures Holds(n.owned, n.blocks)
  {
    hide Holds, Canonical, Allocates, Frees, Resizes, Settled, Rounded, Used;
    match op {
      case Allocate(size) => AllocatesHolds(s.owned, s.blocks, end, size, limit, r, n.blocks);
      case Release(p) => if p in s.owned { FreesHolds(s.owned, s.blocks, end, p, n.blocks); }
      case Resize(p, size) =>
        if p == None || p.value in s.owned {
          if Rounded(size) > limit {
          } else if Rounded(size) == 0 {
            if p.Some? { FreesHolds(s.owned, s.blocks, end, p.value, n.blocks); }
          } else if p == None {
            AllocatesHolds(s.owned, s.blocks, end, Rounded(size), limit, r, n.blocks);
          } else {
            ResizesHolds(s.owned, s.blocks, end, p.value, Rounded(size), limit, r, Change(n.blocks, peak));
          }
        }
    }
    assert op.Release? && op.p !in s.owned ==> s.owned - {op.p} == s.owned;
  }

  // ---- The calls ----

  lemma Counts(m: SmallMem)
    requires m.Valid()
    ensures m.blocks != [] && m.used == Used(m.blocks) <= m.max && Canonical(m.blocks, m.end)
  {}

  method AllocateStep(m: SmallMem, size: nat) returns (r: Option<nat>)
    requires m.Valid() && size < WORD
    modifies m.heap, m`lfree, m`blocks, m`lowest, m`used, m`max
    ensures m.Valid() && Allocates(old(m.blocks), size, m.memSizeAligned, r, m.blocks)
    ensures old(m.blocks) != [] && m.blocks != [] && m.max == Max(old(m.max), Most(old(m.blocks), m.blocks))
  {
    hide *;
    ghost var bs := m.blocks;
    ghost var k;
    Counts(m);
    r, k := m.Alloc(size);
    AllocatesIs(bs, size, m.memSizeAligned, r, k, m.blocks);
    Counts(m);
    MostIs(bs, m.blocks, old(m.max), m.max);
  }

  /** A maximum that follows what is in use afterwards follows the most before and after. */
  lemma MostIs(bs: seq<Block>, cs: seq<Block>, before: int, after: int)
    requires bs != [] && cs != [] && Used(bs) <= before
    requires Used(cs) <= after && (after == before || (after == Used(cs) && before < after))
    ensures after == Max(before, Most(bs, cs))
  {
    hide Used;
  }

  lemma AllocatesIs(bs: seq<Block>, size: nat, limit: nat, r: Option<nat>, k: nat, cs: seq<Block>)
    requires size < WORD && (SmallMem.Lacks(bs, limit, size) ==> r == None && cs == bs)
    requires !SmallMem.Lacks(bs, limit, size) ==>
      FirstFit(bs, k, SmallMem.RequestSize(size)) && r == Some(bs[k].at + HEADER)
      && cs == Allocated(bs, k, SmallMem.RequestSize(size))
    ensures Allocates(bs, size, limit, r, cs)
  {
    hide SmallMem.Lacks, FirstFit, SmallMem.RequestSize;
    if !SmallMem.Lacks(bs, limit, size) { assert Grants(bs, k, SmallMem.RequestSize(size), r.value, cs); }
  }

  method ReleaseStep(m: SmallMem, p: nat, ghost owned: set<nat>)
    requires m.Valid() && Holds(owned, m.blocks) && p in owned
    modifies m.heap, m`lfree, m`blocks, m`lowest, m`used
    ensures m.Valid() && Frees(old(m.blocks), p, m.blocks)
    ensures old(m.blocks) != [] && m.blocks != [] && m.max == Max(m.max, Most(old(m.blocks), m.blocks))
  {
    hide *;
    ghost var bs := m.blocks;
    ghost var i := LiveOf(owned, m.blocks, p);
    Counts(m);
    m.NowLive(p, i);
    m.Free(Some(p), i);
    FreesIs(bs, i, p, m.blocks);
    Counts(m);
    MostIs(bs, m.blocks, m.max, m.max);
  }

  lemma FreesIs(bs: seq<Block>, i: nat, p: nat, cs: seq<Block>)
    requires i + 1 < |bs| && !bs[i].free && p == bs[i].at + HEADER && cs == Freed(bs, i)
    ensures Frees(bs, p, cs)
  {
    assert UsedAt(bs, i, p);
  }

  method ResizeStep(m: SmallMem, p: Option<nat>, size: nat, ghost owned: set<nat>)
    returns (r: Option<nat>, ghost peak: int)
    requires m.Valid() && Holds(owned, m.blocks) && (p.Some? ==> p.value in owned) && size < WORD
    modifies m.heap, m.data, m`lfree, m`blocks, m`lowest, m`used, m`max
    ensures m.Valid() && Reallocates(old(m.blocks), p, size, m.memSizeAligned, r, Change(m.blocks, peak))
    ensures m.max == Max(old(m.max), peak)
  {
    hide *;
    ghost var i := 0;
    if p.Some? {
      i := LiveOf(owned, m.blocks, p.value);
      m.NowLive(p.value, i);
    }

    ghost var bs := m.blocks;
    ghost var k;
    Counts(m);
    r, k := m.Realloc(p, size, i);
    Counts(m);
    peak := ReallocatesIs(bs, p, size, m.memSizeAligned, r, i, k, m.blocks, old(m.max), m.max);
  }

  lemma ReallocatesIs(bs: seq<Block>, p: Option<nat>, size: nat, limit: nat, r: Option<nat>, i: nat, k: nat,
                      cs: seq<Block>, before: int, after: int) returns (peak: int)
    requires size < WORD && (p.Some? ==> i + 1 < |bs| && !bs[i].free && p.value == bs[i].at + HEADER)
    requires bs != [] && cs != [] && Used(bs) <= before && Used(cs) <= after
    requires Rounded(size) > limit ==> r == None && cs == bs && after == before
    requires Rounded(size) == 0 ==> r == None && after == before && cs == if p.Some? then Freed(bs, i) else bs
    requires 0 < Rounded(size) <= limit && p == None ==>
      && after == (if r.Some? then Max(before, Used(cs)) else before)
      && if SmallMem.Lacks(bs, limit, Rounded(size)) then r == None && cs == bs
         else FirstFit(bs, k, SmallMem.RequestSize(Rounded(size))) && r == Some(bs[k].at + HEADER)
              && cs == Allocated(bs, k, SmallMem.RequestSize(Rounded(size)))
    requires 0 < Rounded(size) <= limit && p.Some? ==>
      var n := Rounded(size);
      if Payload(bs, i) == n then r == p && cs == bs && after == before
      else if n + HEADER + MIN_SIZE < Payload(bs, i) then r == p && cs == Shrunk(bs, i, n) && after == before
      else if SmallMem.Lacks(bs, limit, n) then r == None && cs == bs && after == before
      else FirstFit(bs, k, SmallMem.RequestSize(n)) && r == Some(bs[k].at + HEADER)
           && cs == Relocated(bs, i, k, SmallMem.RequestSize(n))
           && after == Max(before, Used(Allocated(bs, k, SmallMem.RequestSize(n))))
    ensures Reallocates(bs, p, size, limit, r, Change(cs, peak)) && after == Max(before, peak)
  {
    hide FirstFit, SmallMem.Lacks, SmallMem.RequestSize, Relocated, Shrunk, Allocated, Freed, Used, Payload;
    var n := Rounded(size);
    peak := Most(bs, cs);
    if n > limit {
    } else if n == 0 {
      if p.Some? { FreesIs(bs, i, p.value, cs); }
    } else if p == None {
      AllocatesIs(bs, n, limit, r, k, cs);
    } else {
      assert UsedAt(bs, i, p.value);
      if !SmallMem.Lacks(bs, limit, n) && Payload(bs, i) != n && n + HEADER + MIN_SIZE >= Payload(bs, i) {
        FitAllocated(bs, k, SmallMem.RequestSize(n));
        peak := Used(Allocated(bs, k, SmallMem.RequestSize(n)));
        assert Relocates(bs, i, k, SmallMem.RequestSize(n), r.value, Change(cs, peak));
      }
      assert ResizesBlock(bs, i, p.value, n, limit, r, Change(cs, peak));
    }
  }

  lemma FitAllocated(bs: seq<Block>, k: nat, size: nat)
    requires FirstFit(bs, k, size)
    ensures k + 1 < |bs| && Allocated(bs, k, size) != []
  {}

  ghost function PointOf(m: SmallMem, owned: set<nat>): Point
    reads m
  {
    Point(m.blocks, owned, m.used, m.max)
  }

  /** One call by a client that only ever passes pointers it holds. */
  method Step(m: SmallMem, op: Op, owned: set<nat>) returns (r: Option<nat>, now: set<nat>, ghost peak: int)
    requires m.Valid() && Holds(owned, m.blocks) && (op.Release? || op.size < WORD)
    modifies m, m.heap, m.data
    ensures m.Valid() && Holds(now, m.blocks)
    ensures Next(old(PointOf(m, owned)), op, m.memSizeAligned, r, peak, PointOf(m, now))
  {
    hide SmallMem.Valid, Holds, Allocates, Frees, Reallocates, Rounded, Used, Canonical;
    ghost var s := PointOf(m, owned);
    Counts(m);
    r, now := None, owned;
    match op {
      case Allocate(size) =>
        r := AllocateStep(m, size);
        now, peak := After(owned, None, size, r), Most(s.blocks, m.blocks);
      case Release(p) =>
        if p in owned {
          ReleaseStep(m, p, owned);
        }
        now, peak := owned - {p}, Most(s.blocks, m.blocks);
      case Resize(p, size) =>
        peak := Most(s.blocks, m.blocks);
        if p == None || p.value in owned {
          r, peak := ResizeStep(m, p, size, owned);
          now := After(owned, p, Rounded(size), r);
        }
    }
    Counts(m);
    NextHolds(s, m.end, op, m.memSizeAligned, r, peak, PointOf(m, now));
  }

  /**
   * What a client did and saw: its calls, their results, the most in use during each, and the heap before and after.
   */
  datatype History = History(results: seq<Option<nat>>, peaks: seq<int>, trace: seq<Point>)

  ghost predicate Follows(ops: seq<Op>, limit: nat, h: History, i: nat)
    requires i < |ops| && i < |h.results| && i < |h.peaks| && i + 1 < |h.trace|
  {
    && (ops[i].Release? || ops[i].size < WORD)
    && Next(h.trace[i], ops[i], limit, h.results[i], h.peaks[i], h.trace[i + 1])
  }

  ghost predicate Right(s: Point, end: nat) {
    && Canonical(s.blocks, end) && Holds(s.owned, s.blocks) && s.blocks != [] && s.used == Used(s.blocks) <= s.max
  }

  ghost predicate RightHistory(ops: seq<Op>, limit: nat, end: nat, h: History) {
    && |h.results| == |h.peaks| == |ops| && |h.trace| == |ops| + 1
    && (forall i: nat :: i < |ops| ==> Follows(ops, limit, h, i))
    && (forall i: nat :: i <= |ops| ==> Right(h.trace[i], end))
  }

  /** `max` is the running maximum: at least all that was ever in use, and no more unless it was more from the start. */
  lemma {:induction false} RunningMaximum(ops: seq<Op>, limit: nat, end: nat, h: History, n: nat)
    requires RightHistory(ops, limit, end, h) && n <= |ops|
    ensures forall i: nat :: i <= n ==> h.trace[i].used <= h.trace[n].max
    ensures forall i: nat :: i < n ==> h.peaks[i] <= h.trace[n].max
    ensures h.trace[n].max == h.trace[0].max || exists i: nat :: i < n && h.trace[n].max == h.peaks[i]
  {
    hide Right, Next;
    AtMost(h.trace[n], end);
    if n > 0 {
      RunningMaximum(ops, limit, end, h, n - 1);
      assert Follows(ops, limit, h, n - 1);
      NextMax(h.trace[n - 1], ops[n - 1], limit, h.results[n - 1], h.peaks[n - 1], h.trace[n]);
    }
  }

  lemma AtMost(s: Point, end: nat)
    requires Right(s, end)
    ensures s.used <= s.max
  {}

  lemma NextMax(s: Point, op: Op, limit: nat, r: Option<nat>, peak: int, n: Point)
    requires (op.Release? || op.size < WORD) && Next(s, op, limit, r, peak, n)
    ensures n.max == Max(s.max, peak)
  {}

  /**
   * After any run, and at every moment of it, the heap is an exact coalesced tiling, the pointers held are exactly the
   * live payloads, and the counts are right; the history is what the calls and their results make.
   */
  method Run(m: SmallMem, ops: seq<Op>) returns (results: seq<Option<nat>>, owned: set<nat>, ghost h: History)
    requires m.Valid() && Holds({}, m.blocks)
    requires forall op | op in ops :: op.Release? || op.size < WORD
    modifies m, m.heap, m.data
    ensures m.Valid() && h.results == results && RightHistory(ops, m.memSizeAligned, m.end, h)
    ensures h.trace[0] == old(PointOf(m, {})) && h.trace[|ops|] == PointOf(m, owned)
    ensures forall i: nat :: i < |ops| ==> h.peaks[i] <= m.max && h.trace[i].used <= m.max
    ensures m.max == old(m.max) || exists i: nat :: i < |ops| && h.peaks[i] == m.max
  {
    hide SmallMem.Valid, Holds, Canonical, Next, Used;
    owned, results, h := {}, [], History([], [], [PointOf(m, {})]);
    Counts(m);
    for i := 0 to |ops|
      invariant m.Valid() && Holds(owned, m.blocks) && h.results == results
      invariant |h.trace| == i + 1 && h.trace[0] == old(PointOf(m, {})) && h.trace[i] == PointOf(m, owned)
      invariant RightHistory(ops[..i], m.memSizeAligned, m.end, h)
    {
      assert ops[i] in ops;
      var r;
      ghost var peak;
      r, owned, peak := Step(m, ops[i], owned);
      Counts(m);
      results := results + [r];
      ghost var more := History(results, h.peaks + [peak], h.trace + [PointOf(m, owned)]);
      OneMore(ops, m.memSizeAligned, m.end, h, more, i);
      h := more;
    }
    assert ops[..|ops|] == ops;
    RunningMaximum(ops, m.memSizeAligned, m.end, h, |ops|);
  }

  lemma OneMore(ops: seq<Op>, limit: nat, end: nat, h: History, more: History, i: nat)
    requires i < |ops| && RightHistory(ops[..i], limit, end, h) && (ops[i].Release? || ops[i].size < WORD)
    requires |more.results| == |more.peaks| == i + 1 && |more.trace| == i + 2
    requires more.results[..i] == h.results && more.peaks[..i] == h.peaks && more.trace[..i + 1] == h.trace
    requires Next(more.trace[i], ops[i], limit, more.results[i], more.peaks[i], more.trace[i + 1])
    requires Right(more.trace[i + 1], end)
    ensures RightHistory(ops[..i + 1], limit, end, more)
  {
    hide Next, Right;
    var done := ops[..i + 1];
    forall j: nat | j <= i ensures Follows(done, limit, more, j) {
      if j < i { assert Follows(ops[..i], limit, h, j); }
    }
    forall j: nat | j <= i + 1 ensures Right(more.trace[j], end) {
      if j <= i { assert Right(h.trace[j], end); }
    }
  }

  /** Freeing everything that is held, in whatever order, restores the heap `rt_smem_init` made. */
  method ReleaseAll(m: SmallMem, order: seq<nat>)
    requires m.Valid() && Holds((set p | p in order), m.blocks)
    requires forall i, j :: 0 <= i < j < |order| ==> order[i] != order[j]
    modifies m, m.heap, m.data
    ensures m.Valid() && m.blocks == [Block(0, true), Block(m.end, false)] && m.used == 0
  {
    hide *;
    var owned := set p | p in order;
    for i := 0 to |order|
      invariant m.Valid() && Holds(owned, m.blocks)
      invariant owned == set p | p in order[i..]
    {
      assert order[i..] == [order[i]] + order[i + 1..];
      assert order[i] !in order[i + 1..];
      ghost var bs := m.blocks;
      Counts(m);
      ReleaseStep(m, order[i], owned);
      FreesHolds(owned, bs, m.end, order[i], m.blocks);
      owned := owned - {order[i]};
    }
    assert order[|order|..] == [];
    assert owned == {};
    m.Open();
    NoneHeld(m.blocks);
    NothingLiveInitial(m.blocks, m.end);
  }

  lemma NoneHeld(bs: seq<Block>)
    requires Holds({}, bs)
    ensures NothingLive(bs)
  {
    forall i | 0 <= i < |bs| - 1 ensures bs[i].free {
      if !bs[i].free { IndexLive(bs, i); }
    }
  }
}
