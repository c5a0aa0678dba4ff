/** Whole runs of the slab heap, and what is left when everything has been freed. */
module SlabRuns {
  import opened Common
  import opened PageRuns
  import opened SlabSizes
  import opened SlabZones
  import opened SlabState
  import opened SlabSteps
  import opened SlabPlaces
  import opened SlabKernel

  /** The pointers a client holds are exactly the live ones. */
  ghost predicate HeldAre(owned: set<nat>, s: State) {
    forall q: nat :: q in owned <==> Live(s, q)
  }

  datatype Op = Allocate(size: nat) | Release(p: nat)

  /** The heap, its free page runs, what a client holds, and the two counts. */
  datatype Point = Point(heap: State, runs: seq<Run>, owned: set<nat>, used: int, max: int)

  /** One call and its result; a client passes only pointers that it holds. */
  ghost predicate Next(s: Point, op: Op, r: Option<nat>, t: Point)
    requires SlabState.Valid(s.heap) && (op.Release? || op.size < WORD)
  {
    match op
    case Allocate(size) =>
      && r == Found(s.heap, s.runs, size) && (r == None <==> Refused(s.heap, s.runs, size))
      && if r == None then t.heap == s.heap && t.owned == s.owned && t.used == s.used && t.max == s.max
         else
           && OneMore(s.heap, t.heap, r.value) && t.owned == s.owned + {r.value}
           && t.used == s.used + Granted(s.heap.zonePages, size) && t.max == Max(s.max, t.used)
    case Release(p) =>
      && r == None
      && if p !in s.owned then t == s
         else
           && OneLess(s.heap, t.heap, p) && t.owned == s.owned - {p} && t.max == s.max
           && exists o: nat :: LiveIn(s.heap, o, p) && t.used == s.used - Extent(s.heap, o)
  }

  lemma HeldGained(owned: set<nat>, s: State, t: State, q: nat)
    requires HeldAre(owned, s) && OneMore(s, t, q)
    ensures HeldAre(owned + {q}, t)
  {
    hide Live;
  }

  lemma HeldLost(owned: set<nat>, s: State, t: State, q: nat)
    requires HeldAre(owned, s) && OneLess(s, t, q)
    ensures HeldAre(owned - {q}, t)
  {
    hide Live;
  }

  // ---- The calls ----

  ghost function PointOf(h: SlabHeap, owned: set<nat>): Point
    reads h, h.heap
  {
    Point(h.Snap(), h.heap.runs, owned, h.used, h.max)
  }

  lemma HeapRight(h: SlabHeap)
    requires h.Valid()
    ensures SlabState.Valid(h.Snap()) && h.used == InUse(h.Snap()) && h.used <= h.max && |h.zoneFree| <= RELEASE_THRESH
  {}

  method AllocateStep(h: SlabHeap, size: nat, owned: set<nat>) returns (r: Option<nat>, now: set<nat>)
    requires h.Valid() && HeldAre(owned, h.Snap()) && size < WORD
    modifies h, h.heap, h.heap.pages
    ensures h.Valid() && HeldAre(now, h.Snap()) && SlabState.Valid(old(h.Snap()))
    ensures Next(old(PointOf(h, owned)), Allocate(size), r, PointOf(h, now))
  {
    hide SlabHeap.Valid, HeldAre, OneMore, OneLess, Live, LiveIn, Extent, SlabState.Valid, Found, Refused, RoundUp,
      ZoneIndex, Limit, PowerOfTwo;
    ghost var s := h.Snap();
    HeapRight(h);
    r := h.Alloc(size);
    now := owned;
    if r.Some? {
      now := owned + {r.value};
      HeldGained(owned, s, h.Snap(), r.value);
    }
  }

  lemma HeldLive(owned: set<nat>, s: State, p: nat)
    requires HeldAre(owned, s) && p in owned
    ensures Live(s, p)
  {}

  method ReleaseStep(h: SlabHeap, p: nat, ghost owned: set<nat>)
    requires h.Valid() && HeldAre(owned, h.Snap()) && p in owned
    modifies h, h.heap, h.heap.pages
    ensures h.Valid() && HeldAre(owned - {p}, h.Snap()) && SlabState.Valid(old(h.Snap()))
    ensures Next(old(PointOf(h, owned)), Release(p), None, PointOf(h, owned - {p}))
  {
    hide SlabHeap.Valid, HeldAre, OneMore, OneLess, Live, LiveIn, Extent, SlabState.Valid;
    ghost var s := h.Snap();
    HeapRight(h);
    HeldLive(owned, s, p);
    h.Free(Some(p));
    HeldLost(owned, s, h.Snap(), p);
  }

  // ---- Runs ----

  datatype History = History(results: seq<Option<nat>>, trace: seq<Point>)

  /** The heap is right, the pointers held are the live ones, and what is in use is what they stand for. */
  ghost predicate Right(s: Point) {
    SlabState.Valid(s.heap) && HeldAre(s.owned, s.heap) && s.used == InUse(s.heap) && s.used <= s.max
  }

  ghost predicate Follows(ops: seq<Op>, h: History, i: nat)
    requires i < |ops| && i < |h.results| && i + 1 < |h.trace| && Right(h.trace[i])
  {
    (ops[i].Release? || ops[i].size < WORD) && Next(h.trace[i], ops[i], h.results[i], h.trace[i + 1])
  }

  ghost predicate RightHistory(ops: seq<Op>, h: History) {
    && |h.results| == |ops| && |h.trace| == |ops| + 1
    && (forall i: nat :: i <= |ops| ==> Right(h.trace[i]))
    && (forall i: nat :: i < |ops| ==> Follows(ops, h, i))
  }

  /** One call by a client that only ever passes pointers it holds. */
  method Step(h: SlabHeap, op: Op, owned: set<nat>) returns (r: Option<nat>, now: set<nat>)
    requires h.Valid() && HeldAre(owned, h.Snap()) && (op.Release? || op.size < WORD)
    modifies h, h.heap, h.heap.pages
    ensures h.Valid() && HeldAre(now, h.Snap()) && SlabState.Valid(old(h.Snap()))
    ensures Next(old(PointOf(h, owned)), op, r, PointOf(h, now))
  {
    hide SlabHeap.Valid, HeldAre, SlabState.Valid, Found, Refused, Granted, OneMore, OneLess, LiveIn, Extent;
    HeapRight(h);
    r, now := None, owned;
    match op {
      case Allocate(size) => r, now := AllocateStep(h, size, owned);
      case Release(p) =>
        if p in owned {
          ReleaseStep(h, p, owned);
          now := owned - {p};
        }
    }
  }

  /**
   * Any sequence of allocations and releases by a client that passes only pointers it holds: the history is what the
   * calls and their results make, and at every moment of it the heap is right and the pointers held are exactly the
   * live ones.
   */
  method Run(h: SlabHeap, ops: seq<Op>) returns (owned: set<nat>, ghost history: History)
    requires h.Valid() && HeldAre({}, h.Snap())
    requires forall op | op in ops :: op.Release? || op.size < WORD
    modifies h, h.heap, h.heap.pages
    ensures h.Valid() && RightHistory(ops, history)
    ensures history.trace[0] == old(PointOf(h, {})) && history.trace[|ops|] == PointOf(h, owned)
  {
    hide SlabHeap.Valid, HeldAre, Next, SlabState.Valid, InUse;
    owned, history := {}, History([], [PointOf(h, {})]);
    HeapRight(h);
    for i := 0 to |ops|
      invariant h.Valid() && HeldAre(owned, h.Snap())
      invariant |history.trace| == i + 1 && history.trace[0] == old(PointOf(h, {}))
      invariant history.trace[i] == PointOf(h, owned)
      invariant RightHistory(ops[..i], history)
    {
      assert ops[i] in ops;
      var r;
      r, owned := Step(h, ops[i], owned);
      HeapRight(h);
      ghost var more := History(history.results + [r], history.trace + [PointOf(h, owned)]);
      Longer(ops, history, more, i);
      history := more;
    }
    assert ops[..|ops|] == ops;
  }

  lemma Longer(ops: seq<Op>, h: History, more: History, i: nat)
    requires i < |ops| && RightHistory(ops[..i], h) && (ops[i].Release? || ops[i].size < WORD)
    requires |more.results| == i + 1 && |more.trace| == i + 2
    requires more.results[..i] == h.results && more.trace[..i + 1] == h.trace && Right(more.trace[i])
    requires Next(more.trace[i], ops[i], more.results[i], more.trace[i + 1]) && Right(more.trace[i + 1])
    ensures RightHistory(ops[..i + 1], more)
  {
    hide Next, Right;
    var done := ops[..i + 1];
    forall j: nat | j <= i + 1 ensures Right(more.trace[j]) {
      if j <= i { assert Right(h.trace[j]); }
    }
    forall j: nat | j <= i ensures Follows(done, more, j) {
      if j < i { assert Follows(ops[..i], h, j); }
    }
  }

  // ---- Giving everything back ----

  /** Without a live pointer nothing is in use: no large block is left, and all chunks of every zone are free. */
  lemma NothingLive(s: State)
    requires SlabState.Valid(s) && forall q: nat :: !Live(s, q)
    ensures InUse(s) == 0 && s.large == map[]
    ensures forall p: nat :: p in s.zones ==> s.zones[p].nfree == s.zones[p].nmax
  {
    forall p: nat | p in s.zones ensures s.zones[p].nfree == s.zones[p].nmax { ZoneFree(s, p); }
    forall p: nat | p in s.large ensures Live(s, p * PAGE) { assert LiveIn(s, p, p * PAGE); }
    hide SlabState.Valid, Live;
    NoBytes(s, |s.usage|);
  }

  lemma ZoneFree(s: State, p: nat)
    requires SlabState.Valid(s) && p in s.zones && forall q: nat :: !Live(s, q)
    ensures s.zones[p].nfree == s.zones[p].nmax
  {
    hide Live, ZoneRight, LiveChunk, BlocksRight;
    assert ZoneAt(s, p);
    var live := LiveCount(p, s.zones[p], s.zonePages);
    forall q: nat | q in live ensures Live(s, q) { ChunkLive(s, p, q); }
    assert live == {};
  }

  lemma ChunkLive(s: State, p: nat, q: nat)
    requires p in s.zones && LiveChunk(p, s.zones[p], q)
    ensures Live(s, q)
  {
    assert LiveIn(s, p, q);
  }

  lemma {:induction false} NoBytes(s: State, n: nat)
    requires s.large == map[] && forall p: nat :: p in s.zones ==> s.zones[p].nfree == s.zones[p].nmax
    ensures Bytes(s, n) == 0
  {
    if n > 0 { NoBytes(s, n - 1); }
  }

  /** Freeing everything that is held, in whatever order, leaves nothing in use and at most two spare zones. */
  method ReleaseAll(h: SlabHeap, order: seq<nat>)
    requires h.Valid() && HeldAre((set p | p in order), h.Snap())
    requires forall i, j :: 0 <= i < j < |order| ==> order[i] != order[j]
    modifies h, h.heap, h.heap.pages
    ensures h.Valid() && h.used == 0 && h.large == map[] && |h.zoneFree| <= 2
    ensures forall p: nat :: p in h.zones ==> h.zones[p].nfree == h.zones[p].nmax
  {
    hide SlabHeap.Valid, HeldAre, Next, SlabState.Valid, InUse;
    ghost var owned := set p | p in order;
    for i := 0 to |order|
      invariant h.Valid() && HeldAre(owned, h.Snap())
      invariant owned == set p | p in order[i..]
    {
      assert order[i..] == [order[i]] + order[i + 1..];
      assert order[i] !in order[i + 1..];
      ReleaseStep(h, order[i], owned);
      owned := owned - {order[i]};
    }
    assert order[|order|..] == [];
    assert owned == {};
    HeapRight(h);
    NoneHeld(h.Snap());
    NothingLive(h.Snap());
  }

  lemma NoneHeld(s: State)
    requires HeldAre({}, s)
    ensures forall q: nat :: !Live(s, q)
  {
    hide Live;
    forall q: nat ensures !Live(s, q) { assert q !in {}; }
  }
}
