/** Whole runs of the memory heap, and what is left when everything has been freed. */
module MemHeapRuns {
  import opened Common
  import opened Lists
  import opened MemHeapBlocks
  import opened MemHeapKernel

  /** `p` is what a client got for a block in use. */
  ghost predicate LivePointer(s: State, p: int) {
    InUse(s, p - ITEM)
  }

  /** The pointers a client holds are exactly those of the blocks in use. */
  ghost predicate HeldAre(owned: set<int>, s: State) {
    forall p: int :: p in owned <==> LivePointer(s, p)
  }

  datatype Op = Allocate(size: nat) | Release(p: int) | Resize(block: Option<int>, size: nat)

  /** The heap, what a client holds, and the two counts. */
  datatype Point = Point(heap: State, owned: set<int>, available: int, max: int)

  /** What a client holds after `Realloc(p, size)` returned `r`. */
  function After(owned: set<int>, p: Option<int>, size: nat, r: Option<int>): set<int> {
    if size == 0 then (if p.Some? then owned - {p.value} else owned)
    else if r == None then owned
    else (if p.Some? then owned - {p.value} else owned) + {r.value}
  }

  // ---- What one call does ----

  /** `Alloc`, of a rounded size. */
  ghost predicate Allocates(s: Point, n: nat, pool: int, r: Option<int>, t: Point) {
    if NoRoom(s.heap, s.available, n) then r == None && t.heap == s.heap && t.max == s.max
    else
      && r.Some? && Serves(s.heap, n, r.value - ITEM) && t.heap == Granted(s.heap, r.value - ITEM, n)
      && t.max == Max(s.max, pool - t.available)
  }

  /** `Realloc` of a block in use to a size that is not zero, when no test wraps. */
  ghost predicate Resizes(s: Point, p: int, n: nat, pool: int, r: Option<int>, t: Point) {
    if Stays(s.heap, p - ITEM, n) then
      r == Some(p) && t.heap == Resized(s.heap, p - ITEM, n) && t.max == Max(s.max, pool - t.available)
    else if NoRoom(s.heap, s.available, n) then r == None && t.heap == s.heap && t.max == s.max
    else
      && r.Some? && r.value != p && Serves(s.heap, n, r.value - ITEM)
      && t.heap == Released(Granted(s.heap, r.value - ITEM, n), p - ITEM)
      && t.max == Peak(s.max, pool, s.heap, r.value - ITEM, n)
  }

  /** One call and its result; a client passes only pointers that it holds. */
  ghost predicate Next(s: Point, op: Op, pool: int, r: Option<int>, t: Point)
    requires op.Release? || op.size < WORD
  {
    match op
    case Allocate(size) =>
      Allocates(s, Aligned(size), pool, r, t) && t.owned == if r.Some? then s.owned + {r.value} else s.owned
    case Release(p) => r == None && Releases(s, p, t)
    case Resize(p, size) =>
      if p.Some? && p.value !in s.owned then r == None && t == s
      else if size == 0 then r == None && (if p.Some? then Releases(s, p.value, t) else t == s)
      else
        && t.owned == After(s.owned, p, size, r)
        && if p == None then Allocates(s, Aligned(size), pool, r, t) else Resizes(s, p.value, Aligned(size), pool, r, t)
  }

  ghost predicate Releases(s: Point, p: int, t: Point) {
    if p in s.owned then
      t.heap == Released(s.heap, p - ITEM) && t.owned == s.owned - {p} && t.max == s.max
    else t == s
  }

  /** The call wraps in the test for growing. */
  ghost predicate Wraps(s: Point, op: Op)
    requires op.Release? || op.size < WORD
  {
    && op.Resize? && op.size > 0 && op.block.Some? && op.block.value in s.owned
    && WrapsBehind(s.heap, op.block.value - ITEM, op.size)
  }

  // ---- What it means for the pointers held ----

  lemma HeldGained(owned: set<int>, s: State, t: State, p: int, least: int)
    requires HeldAre(owned, s) && GainsAtLeast(s, t, p - ITEM, least)
    ensures HeldAre(owned + {p}, t)
  {
    hide Holds;
    var n :| n >= least && Gains(s, t, p - ITEM, n);
    forall q ensures LivePointer(t, q) <==> LivePointer(s, q) || q == p {
      if q == p { assert Holds(t, p - ITEM, n); }
      InUseGained(s, t, p - ITEM, n, q - ITEM);
    }
  }

  lemma InUseGained(s: State, t: State, b: int, n: int, x: int)
    requires Gains(s, t, b, n)
    ensures InUse(t, x) <==> InUse(s, x) || x == b
  {
    hide Holds;
    if InUse(s, x) {
      var m :| Holds(s, x, m);
      assert Holds(t, x, m);
    }
    if x == b { assert Holds(t, b, n); }
  }

  lemma HeldLost(owned: set<int>, s: State, t: State, p: int)
    requires HeldAre(owned, s) && Loses(s, t, p - ITEM)
    ensures HeldAre(owned - {p}, t)
  {
    hide Holds;
    forall q ensures LivePointer(t, q) <==> LivePointer(s, q) && q != p {
      if LivePointer(s, q) && q != p {
        var m :| Holds(s, q - ITEM, m);
        assert Holds(t, q - ITEM, m);
      }
      if LivePointer(t, q) {
        var m :| Holds(t, q - ITEM, m);
        assert Holds(s, q - ITEM, m);
      }
    }
  }

  lemma HeldResized(owned: set<int>, s: State, t: State, p: int, least: int)
    requires HeldAre(owned, s) && p in owned && ResizesAtLeast(s, t, p - ITEM, least)
    ensures HeldAre(owned, t)
  {
    hide Holds;
    var n :| n >= least && MemHeapBlocks.Resizes(s, t, p - ITEM, n);
    forall q ensures LivePointer(t, q) <==> LivePointer(s, q) {
      if q == p { assert Holds(t, p - ITEM, n); }
      if LivePointer(s, q) && q != p {
        var m :| Holds(s, q - ITEM, m);
        assert Holds(t, q - ITEM, m);
      }
      if LivePointer(t, q) && q != p {
        var m :| Holds(t, q - ITEM, m);
        assert Holds(s, q - ITEM, m);
      }
    }
  }

  lemma HeldMoved(owned: set<int>, s: State, t: State, p: int, r: int, least: int)
    requires HeldAre(owned, s) && p != r && MovesAtLeast(s, t, p - ITEM, r - ITEM, least)
    ensures HeldAre(owned - {p} + {r}, t)
  {
    hide Holds;
    var n :| n >= least && Moves(s, t, p - ITEM, r - ITEM, n);
    forall q ensures LivePointer(t, q) <==> (LivePointer(s, q) && q != p) || q == r {
      if q == r { assert Holds(t, r - ITEM, n); }
      if LivePointer(s, q) && q != p {
        var m :| Holds(s, q - ITEM, m);
        assert Holds(t, q - ITEM, m);
      }
      if LivePointer(t, q) && q != r {
        var m :| Holds(t, q - ITEM, m);
        assert Holds(s, q - ITEM, m);
      }
    }
  }

  // ---- The calls ----

  ghost function PointOf(h: MemHeap, owned: set<int>): Point
    reads h
  {
    Point(h.Snap(), owned, h.available, h.maxUsed)
  }

  method AllocateStep(h: MemHeap, size: nat, ghost owned: set<int>) returns (r: Option<int>)
    requires h.Valid() && HeldAre(owned, h.Snap()) && size < WORD
    modifies h
    ensures h.Valid() && HeldAre(if r.Some? then owned + {r.value} else owned, h.Snap())
    ensures forall more :: Allocates(old(PointOf(h, owned)), Aligned(size), h.poolSize, r, PointOf(h, more))
  {
    hide MemHeap.Valid, HeldAre, GainsAtLeast, NoRoom, Serves, Granted, Aligned;
    ghost var s := h.Snap();
    r := h.Alloc(size);
    if r.Some? { HeldGained(owned, s, h.Snap(), r.value, Aligned(size)); }
  }

  lemma HeldInUse(owned: set<int>, s: State, p: int)
    requires HeldAre(owned, s) && p in owned
    ensures InUse(s, p - ITEM)
  {
    assert LivePointer(s, p);
  }

  method ReleaseStep(h: MemHeap, p: int, ghost owned: set<int>)
    requires h.Valid() && HeldAre(owned, h.Snap()) && p in owned
    modifies h
    ensures h.Valid() && HeldAre(owned - {p}, h.Snap()) && h.maxUsed == old(h.maxUsed)
    ensures h.Snap() == Released(old(h.Snap()), p - ITEM)
  {
    hide MemHeap.Valid, HeldAre, Loses, Released, InUse;
    ghost var s := h.Snap();
    HeldInUse(owned, s, p);
    h.Free(Some(p));
    HeldLost(owned, s, h.Snap(), p);
  }

  method ResizeStep(h: MemHeap, p: int, size: nat, ghost owned: set<int>) returns (r: Option<int>, wrapped: bool)
    requires h.Valid() && HeldAre(owned, h.Snap()) && p in owned && 0 < size < WORD
    modifies h
    ensures h.Valid() && (wrapped <==> WrapsBehind(old(h.Snap()), p - ITEM, size))
    ensures wrapped ==> PointOf(h, owned) == old(PointOf(h, owned))
    ensures !wrapped ==> HeldAre(After(owned, Some(p), size, r), h.Snap())
    ensures !wrapped ==>
      forall more :: Resizes(old(PointOf(h, owned)), p, Aligned(size), h.poolSize, r, PointOf(h, more))
  {
    hide MemHeap.Valid, HeldAre, InUse, NoRoom, Serves, Granted, Aligned, Released, Resized, Stays, WrapsBehind, Peak,
      GainsAtLeast, ResizesAtLeast, MovesAtLeast;
    ghost var s := h.Snap();
    HeldInUse(owned, s, p);
    SameAvailable(h);
    r, wrapped := h.Realloc(Some(p), size);
    SameAvailable(h);
    if !wrapped && r.Some? {
      if r == Some(p) {
        HeldResized(owned, s, h.Snap(), p, Aligned(size));
        assert owned - {p} + {p} == owned;
      } else {
        HeldMoved(owned, s, h.Snap(), p, r.value, Aligned(size));
      }
    }
  }

  /** The available bytes follow from the blocks. */
  lemma SameAvailable(h: MemHeap)
    requires h.Valid()
    ensures h.available == FreeSum(h.Snap().cuts, h.Snap().free) && Sound(h.Snap())
    ensures h.poolSize - h.available <= h.maxUsed
  {}

  /** One call by a client that only ever passes pointers it holds; nothing happens in the model when its test wraps. */
  method Step(h: MemHeap, op: Op, owned: set<int>) returns (r: Option<int>, now: set<int>, wrapped: bool)
    requires h.Valid() && HeldAre(owned, h.Snap()) && (op.Release? || op.size < WORD)
    modifies h
    ensures h.Valid() && HeldAre(now, h.Snap()) && (wrapped <==> Wraps(old(PointOf(h, owned)), op))
    ensures wrapped ==> PointOf(h, now) == old(PointOf(h, owned))
    ensures !wrapped ==> Next(old(PointOf(h, owned)), op, h.poolSize, r, PointOf(h, now))
  {
    hide MemHeap.Valid, HeldAre, Allocates, Resizes, Released, WrapsBehind, Aligned;
    r, now, wrapped := None, owned, false;
    SameAvailable(h);
    match op {
      case Allocate(size) =>
        r := AllocateStep(h, size, owned);
        now := if r.Some? then owned + {r.value} else owned;
      case Release(p) =>
        if p in owned {
          ReleaseStep(h, p, owned);
          now := owned - {p};
        }
      case Resize(p, size) =>
        if p == None {
          if size > 0 {
            r := AllocateStep(h, size, owned);
            now := After(owned, p, size, r);
          }
        } else if p.value in owned {
          if size == 0 {
            ReleaseStep(h, p.value, owned);
            now := owned - {p.value};
          } else {
            r, wrapped := ResizeStep(h, p.value, size, owned);
            now := if wrapped then owned else After(owned, p, size, r);
          }
        }
    }
  }

  // ---- Runs ----

  datatype History = History(results: seq<Option<int>>, trace: seq<Point>)

  ghost predicate Follows(ops: seq<Op>, pool: int, h: History, i: nat)
    requires i < |ops| && i < |h.results| && i + 1 < |h.trace|
  {
    && (ops[i].Release? || ops[i].size < WORD) && !Wraps(h.trace[i], ops[i])
    && Next(h.trace[i], ops[i], pool, h.results[i], h.trace[i + 1])
  }

  /** The pointers held are the blocks in use, no two free blocks are neighbours, and the counts are right. */
  ghost predicate Right(s: Point, pool: int) {
    && Sound(s.heap) && HeldAre(s.owned, s.heap) && s.available == FreeSum(s.heap.cuts, s.heap.free)
    && pool - s.available <= s.max
  }

  ghost predicate RightHistory(ops: seq<Op>, pool: int, h: History) {
    && |h.results| == |ops| && |h.trace| == |ops| + 1
    && (forall i: nat :: i < |ops| ==> Follows(ops, pool, h, i))
    && (forall i: nat :: i <= |ops| ==> Right(h.trace[i], pool))
  }

  /**
   * Any sequence of calls, up to one whose test for growing wraps: the history is what the calls and their results
   * make, and at every moment of it the heap is right and the pointers held are exactly the blocks in use.
   */
  method Run(h: MemHeap, ops: seq<Op>) returns (done: nat, owned: set<int>, ghost history: History)
    requires h.Valid() && HeldAre({}, h.Snap())
    requires forall op | op in ops :: op.Release? || op.size < WORD
    modifies h
    ensures h.Valid() && done <= |ops| && RightHistory(ops[..done], h.poolSize, history)
    ensures history.trace[0] == old(PointOf(h, {})) && history.trace[done] == PointOf(h, owned)
    ensures done < |ops| ==> (ops[done].Release? || ops[done].size < WORD) && Wraps(history.trace[done], ops[done])
  {
    hide MemHeap.Valid, HeldAre, Next, Wraps, Sound, FreeSum;
    done, owned, history := 0, {}, History([], [PointOf(h, {})]);
    SameAvailable(h);
    while done < |ops|
      invariant h.Valid() && done <= |ops| && HeldAre(owned, h.Snap())
      invariant |history.trace| == done + 1 && history.trace[0] == old(PointOf(h, {}))
      invariant history.trace[done] == PointOf(h, owned)
      invariant RightHistory(ops[..done], h.poolSize, history)
    {
      assert ops[done] in ops;
      var r, now, wrapped := Step(h, ops[done], owned);
      if wrapped {
        owned := now;
        return;
      }
      SameAvailable(h);
      owned := now;
      ghost var more := History(history.results + [r], history.trace + [PointOf(h, owned)]);
      OneMore(ops, h.poolSize, history, more, done);
      history, done := more, done + 1;
    }
  }

  lemma OneMore(ops: seq<Op>, pool: int, h: History, more: History, i: nat)
    requires i < |ops| && RightHistory(ops[..i], pool, h) && (ops[i].Release? || ops[i].size < WORD)
    requires |more.results| == i + 1 && |more.trace| == i + 2
    requires more.results[..i] == h.results && more.trace[..i + 1] == h.trace && !Wraps(more.trace[i], ops[i])
    requires Next(more.trace[i], ops[i], pool, more.results[i], more.trace[i + 1]) && Right(more.trace[i + 1], pool)
    ensures RightHistory(ops[..i + 1], pool, more)
  {
    hide Next, Right, Wraps;
    var done := ops[..i + 1];
    forall j: nat | j <= i ensures Follows(done, pool, more, j) {
      if j < i { assert Follows(ops[..i], pool, h, j); }
    }
    forall j: nat | j <= i + 1 ensures Right(more.trace[j], pool) {
      if j <= i { assert Right(h.trace[j], pool); }
    }
  }

  // ---- Giving everything back ----

  /** A heap with nothing in use is the one that `rt_memheap_init` made. */
  lemma NothingInUse(s: State)
    requires Sound(s) && forall b :: !InUse(s, b)
    ensures |s.cuts| == 2 && s.free == [s.cuts[0]]
    ensures FreeSum(s.cuts, s.free) == s.cuts[1] - s.cuts[0] - ITEM
  {
    hide FreeSum;
    forall i: nat | i < |s.cuts| - 1 ensures s.cuts[i] in s.free {
      if s.cuts[i] !in s.free { UsedIs(s, i); }
    }
    TwoCuts(s);
    OnlyOne(s);
    assert s.cuts == [s.cuts[0], s.cuts[1]];
    FreeSumTwo(s.cuts[0], s.cuts[1], s.free);
  }

  lemma UsedIs(s: State, i: nat)
    requires i < |s.cuts| - 1 && s.cuts[i] !in s.free
    ensures InUse(s, s.cuts[i])
  {
    assert Holds(s, s.cuts[i], Payload(s.cuts, i));
  }

  lemma OnlyOne(s: State)
    requires Tiled(s) && |s.cuts| == 2 && s.cuts[0] in s.free
    ensures s.free == [s.cuts[0]]
  {
    forall k | 0 <= k < |s.free| ensures s.free[k] == s.cuts[0] { assert s.free[k] in s.free; }
    if |s.free| >= 2 { Another(s.free, s.cuts[0]); }
  }

  lemma Another(free: seq<int>, x: int)
    requires Distinct(free) && |free| >= 2
    ensures exists k :: 0 <= k < |free| && free[k] != x
  {
    assert free[0] != free[1];
  }

  lemma TwoCuts(s: State)
    requires Sound(s) && forall i: nat :: i < |s.cuts| - 1 ==> s.cuts[i] in s.free
    ensures |s.cuts| == 2
  {
    assert s.cuts[0] in s.free;
    assert s.cuts[0 + 1] !in s.free;
  }

  /** Freeing everything that is held, in whatever order, gives the fresh block back. */
  method ReleaseAll(h: MemHeap, order: seq<int>)
    requires h.Valid() && HeldAre((set p | p in order), h.Snap())
    requires forall i, j :: 0 <= i < j < |order| ==> order[i] != order[j]
    modifies h
    ensures h.Valid() && h.cuts == [0, h.poolSize - ITEM] && h.free == [0] && h.available == h.poolSize - 2 * ITEM
  {
    hide MemHeap.Valid, HeldAre, Released, FreeSum, Sound;
    ghost var owned := set p | p in order;
    for i := 0 to |order|
      invariant h.Valid() && HeldAre(owned, h.Snap())
      invariant owned == set p | p in order[i..]
    {
      assert order[i..] == [order[i]] + order[i + 1..];
      assert order[i] !in order[i + 1..];
      ReleaseStep(h, order[i], owned);
      owned := owned - {order[i]};
    }
    assert order[|order|..] == [];
    assert owned == {};
    SameAvailable(h);
    NoneHeld(h.Snap());
    NothingInUse(h.Snap());
    EndsAt(h);
  }

  lemma NoneHeld(s: State)
    requires HeldAre({}, s)
    ensures forall b :: !InUse(s, b)
  {
    forall b ensures !InUse(s, b) { assert !LivePointer(s, b + ITEM); }
  }

  lemma EndsAt(h: MemHeap)
    requires h.Valid()
    ensures |h.cuts| >= 2 && h.cuts[0] == 0 && h.cuts[|h.cuts| - 1] == h.poolSize - ITEM
  {}
}
