/** `rt_memheap`: blocks on a ring in address order, the free ones on a second ring. */
module MemHeapKernel {
  import opened Common
  import opened Lists
  import opened Rings
  import opened MemHeapBlocks
  import opened MemHeapEffects

  /** The header of the free ring, which lies outside the pool. */
  const HEAD := -1

  /** RT_ALIGN in 32 bits, and at least RT_MEMHEAP_MINIALLOC. */
  function Aligned(size: nat): (n: nat)
    requires size < WORD
    ensures n % 8 == 0 && n >= MINI && (size + 7 >= WORD ==> n == MINI)
    ensures size + 7 < WORD ==> n >= size && (n < size + 8 || n == MINI)
  {
    if Rounded(size) < MINI then MINI else Rounded(size)
  }

  /** The flag of every item says whether it is on the free ring. */
  ghost predicate Flags(used: map<int, bool>, cuts: seq<int>, free: seq<int>) {
    forall i :: 0 <= i < |cuts| ==> cuts[i] in used && (used[cuts[i]] <==> cuts[i] !in free)
  }

  lemma FlagsCut(used: map<int, bool>, cuts: seq<int>, free: seq<int>, i: nat, at: int)
    requires Flags(used, cuts, free) && i < |cuts| && at !in cuts && at !in free
    ensures Flags(used[at := true], Inserted(cuts, i, at), free)
  {}

  lemma FlagsJoined(used: map<int, bool>, cuts: seq<int>, free: seq<int>, i: nat)
    requires Flags(used, cuts, free) && i < |cuts|
    ensures Flags(used, Dropped(cuts, i), free)
  {}

  lemma FlagsAdded(used: map<int, bool>, cuts: seq<int>, free: seq<int>, b: int)
    requires Flags(used, cuts, free)
    ensures Flags(used[b := false], cuts, [b] + free)
  {}

  lemma FlagsRemoved(used: map<int, bool>, cuts: seq<int>, free: seq<int>, b: int)
    requires Flags(used, cuts, free) && Distinct(free)
    ensures Flags(used[b := true], cuts, Remove(free, b))
  {
    RemoveMembers(free, b);
  }

  /** An item goes onto the free ring right behind the ring's header. */
  lemma FreeRingWith(next: map<int, int>, prev: map<int, int>, free: seq<int>, b: int)
    requires Ring(next, prev, [HEAD] + free) && b !in free && b != HEAD
    ensures HEAD in next && next[HEAD] in prev
    ensures Ring(next[b := next[HEAD]][HEAD := b], prev[b := HEAD][next[HEAD] := b], [HEAD] + ([b] + free))
  {
    var row := [HEAD] + free;
    RingAt(next, prev, row, 0);
    RingInserted(next, prev, row, 0, b);
    assert Inserted(row, 0, b) == [HEAD] + ([b] + free);
  }

  /** An item leaves the free ring, wherever it is. */
  lemma FreeRingWithout(next: map<int, int>, prev: map<int, int>, free: seq<int>, b: int)
    requires Ring(next, prev, [HEAD] + free) && b in free
    ensures b in next && b in prev && next[b] in prev && prev[b] in next
    ensures Ring(next[prev[b] := next[b]], prev[next[b] := prev[b]], [HEAD] + Remove(free, b))
  {
    hide Ring;
    var row, k := [HEAD] + free, IndexOf(free, b);
    DroppedRest(free, k, b);
    RingAt(next, prev, row, k + 1);
    RingDropped(next, prev, row, k + 1);
  }

  lemma DroppedRest(free: seq<int>, k: nat, b: int)
    requires b in free && k == IndexOf(free, b)
    ensures ([HEAD] + free)[k + 1] == b && Dropped([HEAD] + free, k + 1) == [HEAD] + Remove(free, b)
  {
    hide Dropped;
    var row, less := [HEAD] + free, [HEAD] + Dropped(free, k);
    DroppedRemoves(free, k, b);
    DroppedAt(row, k + 1, 0);
    forall j: nat | j < |free| ensures |less| == |free| == |Dropped(row, k + 1)| && Dropped(row, k + 1)[j] == less[j] {
      DroppedAt(row, k + 1, j);
      if j > 0 { DroppedAt(free, k, j - 1); }
    }
  }

  lemma DroppedRemoves(free: seq<int>, k: nat, b: int)
    requires b in free && k == IndexOf(free, b)
    ensures Dropped(free, k) == Remove(free, b) && |Dropped(free, k)| == |free| - 1
  {}

  /** A new item behind item `i` on the block ring. */
  lemma BlockRingWith(next: map<int, int>, prev: map<int, int>, cuts: seq<int>, i: nat, at: int)
    requires Ring(next, prev, cuts) && i < |cuts| - 1 && at !in cuts
    ensures cuts[i] in next && next[cuts[i]] in prev
    ensures Ring(next[at := next[cuts[i]]][cuts[i] := at], prev[at := cuts[i]][next[cuts[i]] := at],
      Inserted(cuts, i, at))
    ensures |Inserted(cuts, i, at)| == |cuts| + 1
    ensures Inserted(cuts, i, at)[0] == cuts[0] && Inserted(cuts, i, at)[|cuts|] == cuts[|cuts| - 1]
  {
    hide Ring;
    RingAt(next, prev, cuts, i);
    RingInserted(next, prev, cuts, i, at);
    InsertedAt(cuts, i, at, 0);
    InsertedAt(cuts, i, at, |cuts|);
  }

  /** The item behind item `i` leaves the block ring. */
  lemma BlockRingWithout(next: map<int, int>, prev: map<int, int>, cuts: seq<int>, i: nat)
    requires Ring(next, prev, cuts) && i + 2 < |cuts|
    ensures cuts[i] in next && next[cuts[i]] in next && next[next[cuts[i]]] in prev
    ensures Ring(next[cuts[i] := next[next[cuts[i]]]], prev[next[next[cuts[i]]] := cuts[i]], Dropped(cuts, i + 1))
    ensures |Dropped(cuts, i + 1)| == |cuts| - 1
    ensures Dropped(cuts, i + 1)[0] == cuts[0] && Dropped(cuts, i + 1)[|cuts| - 2] == cuts[|cuts| - 1]
  {
    hide Ring;
    RingAt(next, prev, cuts, i);
    RingAt(next, prev, cuts, i + 1);
    RingDropped(next, prev, cuts, i + 1);
    DroppedAt(cuts, i + 1, 0);
    DroppedAt(cuts, i + 1, |cuts| - 2);
  }

  /** No request of `n` bytes is granted: not even all free bytes are more than it, or no free block holds it. */
  ghost predicate NoRoom(s: State, available: int, n: nat) {
    n >= available || FirstFit(s, n, |s.free|)
  }

  /** The block at `b` is the first on the free ring that holds `n` bytes. */
  ghost predicate Serves(s: State, n: nat, b: int) {
    exists k: nat :: k < |s.free| && FirstFit(s, n, k) && b == s.free[k]
  }

  ghost predicate InPlace(s: State, ptr: Option<int>, n: nat) {
    ptr.Some? && Stays(s, ptr.value - ITEM, n)
  }

  /** The first that fits is handed out, and then the old block, if any, is given back. */
  ghost function MovedTo(s: State, ptr: Option<int>, b: int, n: nat): State {
    if ptr.Some? then Released(Granted(s, b, n), ptr.value - ITEM) else Granted(s, b, n)
  }

  /** The running maximum, with both blocks of a move in use. */
  ghost function Peak(max: int, poolSize: int, s: State, b: int, n: nat): int {
    var t := Granted(s, b, n);
    var peak := poolSize - FreeSum(t.cuts, t.free);
    Max(max, peak)
  }

  /** The block has to grow, the new size and the minimum do not fit a word together, and the test on the rest holds. */
  ghost predicate WrapsBehind(s: State, b: int, request: nat)
    requires request < WORD
  {
    && Aligned(request) + MINI >= WORD && Block(s, b)
    && var i := IndexOf(s.cuts, b);
       && Aligned(request) > Payload(s.cuts, i) && FreeBehind(s, i) && i + 2 < |s.cuts|
       && Payload(s.cuts, i) + Payload(s.cuts, i + 1) > (Aligned(request) + MINI) % WORD
  }

  /** Where the source cuts after a test that wrapped: inside the header of the block that was to grow. */
  lemma WrappedCut(b: nat, request: nat)
    requires request < WORD && Aligned(request) + MINI >= WORD
    ensures b < b + ITEM + Aligned(request) - WORD < b + ITEM
  {}

  /**
   * What the source has then, after the free block behind is taken off both rings and the new one linked in: items that
   * overlap, of which the first reads as large as it was asked to be, in words.
   */
  lemma WrappedBreaks(s: State, b: int, request: nat)
    requires Tiled(s) && request < WORD && WrapsBehind(s, b, request)
    ensures var i := IndexOf(s.cuts, b);
      && i < |Absorbed(s, i).cuts|
      && var t := Cut(Absorbed(s, i), i, b + ITEM + Aligned(request) - WORD);
         !Tiled(t) && i + 1 < |t.cuts| && t.cuts[i] == b && Payload(t.cuts, i) % WORD == Aligned(request)
  {
    hide Tiled, FreeSum, Inserted, Aligned, Absorbed;
    var i, at := IndexOf(s.cuts, b), b + ITEM + Aligned(request) - WORD;
    AlignedTwice(request);
    AbsorbedTiled(s, i);
    CutNumber(Absorbed(s, i), i, at);
    InsertedAt(Absorbed(s, i).cuts, i, at, i);
    Overlaps(Cut(Absorbed(s, i), i, at), i);
  }

  lemma Overlaps(s: State, i: nat)
    requires i + 1 < |s.cuts| && s.cuts[i + 1] - s.cuts[i] < ITEM
    ensures !Tiled(s)
  {
    assert !Apart(s.cuts, i);
  }

  /** What the tests of a reallocation come to. */
  lemma RoomBehind(s: State, i: nat, request: nat)
    requires i < |s.cuts| - 1 && Block(s, s.cuts[i]) && i == IndexOf(s.cuts, s.cuts[i]) && 0 < request < WORD
    ensures var n, b, size := Aligned(request), s.cuts[i], Payload(s.cuts, i);
      && (n <= size ==> Stays(s, b, n) && !WrapsBehind(s, b, request))
      && (n > size && !FreeBehind(s, i) ==> !Stays(s, b, n) && !WrapsBehind(s, b, request))
      && (n > size && FreeBehind(s, i) && i + 2 < |s.cuts| ==>
            var test := Payload(s.cuts, i + 1) + size > (n + MINI) % WORD;
            && (WrapsBehind(s, b, request) <==> test && n + MINI >= WORD)
            && (Stays(s, b, n) && n + MINI < WORD <==> test && n + MINI < WORD) && (!test ==> !Stays(s, b, n)))
      && Resized(s, b, n) == if n > size then Grown(s, i, n) else if n + ITEM + MINI >= size then s else Shrunk(s, i, n)
  {
    hide Aligned;
    NoWrap(Aligned(request));
  }

  lemma NoWrap(n: nat)
    ensures (n + MINI) % WORD <= n + MINI && (n + MINI < WORD ==> (n + MINI) % WORD == n + MINI)
  {}

  lemma FreshRight(h: MemHeap, tail: int)
    requires h.poolSize % 8 == 0 && 0 <= h.poolSize < WORD && tail == h.poolSize - ITEM
    requires h.cuts == [0, tail] && h.free == [0] && h.used == map[0 := false, tail := true]
    requires h.next == map[0 := tail, tail := 0] && h.prev == h.next
    requires h.nextFree == map[HEAD := 0, 0 := HEAD] && h.prevFree == h.nextFree
    requires h.available == (h.poolSize - 2 * ITEM) % WORD && h.maxUsed == 2 * ITEM
    ensures h.Valid() <==> h.poolSize >= 2 * ITEM
  {
    hide FreeSum, Ring, Tiled, Flags;
    FreshTiled(tail);
    if tail >= ITEM {
      FreshRing(h.next, h.prev, 0, tail);
      FreshRing(h.nextFree, h.prevFree, HEAD, 0);
      assert [HEAD] + [0] == [HEAD, 0];
      FreshFlags(tail);
      FreeSumTwo(0, tail, [0]);
    }
  }

  lemma FreshTiled(tail: int)
    requires tail % 8 == 0
    ensures Tiled(State([0, tail], [0])) <==> tail >= ITEM
    ensures tail >= ITEM ==> Coalesced(State([0, tail], [0]))
  {
    var s := State([0, tail], [0]);
    assert Tiled(s) ==> Apart(s.cuts, 0);
  }

  lemma FreshRing(next: map<int, int>, prev: map<int, int>, a: int, b: int)
    requires a != b && next == map[a := b, b := a] == prev
    ensures Ring(next, prev, [a, b])
  {}

  lemma FreshFlags(tail: int)
    requires tail > 0
    ensures Flags(map[0 := false, tail := true], [0, tail], [0])
  {}

  class MemHeap {
    /** The header fields of all items, by address. */
    var next: map<int, int>
    var prev: map<int, int>
    var nextFree: map<int, int>
    var prevFree: map<int, int>
    var used: map<int, bool>

    const poolSize: nat
    var available: int
    var maxUsed: int

    ghost var cuts: seq<int>
    ghost var free: seq<int>

    ghost function Snap(): State
      reads this`cuts, this`free
    {
      State(cuts, free)
    }

    /** Both rings are linked, and each item's flag says which of them it is on. */
    ghost predicate Linked()
      reads this`next, this`prev, this`nextFree, this`prevFree, this`used, this`cuts, this`free
    {
      && Ring(next, prev, cuts) && Ring(nextFree, prevFree, [HEAD] + free)
      && Flags(used, cuts, free)
      && Tiled(Snap()) && cuts[0] == 0 && cuts[|cuts| - 1] == poolSize - ITEM
    }

    ghost predicate Valid()
      reads this
    {
      Linked() && Coalesced(Snap()) && available == FreeSum(cuts, free) && poolSize - available <= maxUsed
    }

    /**
     * `rt_memheap_init`: one free block, and a used tail without a payload. The size is not looked at: a pool with no
     * room for two headers gets them on top of each other.
     */
    constructor (size: nat)
      requires size < WORD
      ensures poolSize == size / 8 * 8 && (Valid() <==> poolSize >= 2 * ITEM)
      ensures available == (poolSize - 2 * ITEM) % WORD && maxUsed == 2 * ITEM
      ensures cuts == [0, poolSize - ITEM] && free == [0]
    {
      hide *;
      var tail := size / 8 * 8 - ITEM;
      poolSize := size / 8 * 8;
      available := (size / 8 * 8 - 2 * ITEM) % WORD;
      maxUsed := 2 * ITEM;
      next, prev := map[0 := tail, tail := 0], map[0 := tail, tail := 0];
      nextFree, prevFree := map[HEAD := 0, 0 := HEAD], map[HEAD := 0, 0 := HEAD];
      used := map[0 := false, tail := true];
      cuts, free := [0, tail], [0];
      new;
      FreshRight(this, tail);
    }

    lemma FreeDistinct()
      requires Linked()
      ensures Distinct(free)
    {}

    lemma At(i: nat)
      requires Linked() && i < |cuts|
      ensures cuts[i] in next && cuts[i] in prev && cuts[i] in used && next[cuts[i]] == After(cuts, i)
        && prev[cuts[i]] == Before(cuts, i)
      ensures used[cuts[i]] <==> cuts[i] !in free
      ensures |cuts| >= 2 && (i + 1 < |cuts| ==> cuts[i] + ITEM <= cuts[i + 1]) && cuts[i] >= 0
      ensures i > 0 ==> cuts[i - 1] in used && (used[cuts[i - 1]] <==> cuts[i - 1] !in free)
      ensures i + 1 < |cuts| ==> cuts[i + 1] in used && (used[cuts[i + 1]] <==> cuts[i + 1] !in free)
    {
      RingAt(next, prev, cuts, i);
      if i > 0 { Increasing(Snap(), 0, i); }
      if i + 1 < |cuts| { assert Apart(cuts, i); }
    }

    /** A new header at `at`, behind item `b`; its block counts as used until it is put on the free ring. */
    method Split(b: int, at: int, ghost i: nat)
      requires Linked() && i < |cuts| - 1 && b == cuts[i] && (at - b) % 8 == 0 && b + ITEM <= at
        && at + ITEM <= cuts[i + 1]
      modifies this`next, this`prev, this`used, this`cuts
      ensures Linked() && Snap() == Cut(old(Snap()), i, at) && at !in old(cuts)
    {
      hide Ring, Tiled, Flags, FreeSum, Inserted, Distinct;
      At(i);
      CutTiled(Snap(), i, at);
      TiledSize(Snap());
      BlockRingWith(next, prev, cuts, i, at);
      FlagsCut(used, cuts, free, i, at);
      var behind := next[b];
      used := used[at := true];
      prev := prev[at := b];
      next := next[at := behind];
      prev := prev[behind := at];
      next := next[b := at];
      cuts := Inserted(cuts, i, at);
      assert Snap() == Cut(old(Snap()), i, at);
    }

    /** The block behind item `b`, which is not on the free ring, becomes part of the one of `b`. */
    method Join(b: int, ghost i: nat)
      requires Linked() && i + 2 < |cuts| && b == cuts[i] && cuts[i + 1] !in free
      modifies this`next, this`prev, this`cuts
      ensures Linked() && Snap() == Joined(old(Snap()), i)
    {
      hide Ring, Tiled, Flags, FreeSum, Dropped, Distinct;
      JoinedTiled(Snap(), i);
      BlockRingWithout(next, prev, cuts, i);
      var gone := next[b];
      var behind := next[gone];
      prev := prev[behind := b];
      next := next[b := behind];
      FlagsJoined(used, cuts, free, i + 1);
      cuts := Dropped(cuts, i + 1);
      assert Snap() == Joined(old(Snap()), i);
    }

    /** Puts an item on the free ring, in front. */
    method PushFree(b: int, ghost i: nat)
      requires Linked() && i < |cuts| - 1 && b == cuts[i] && b !in free
      modifies this`nextFree, this`prevFree, this`used, this`free
      ensures Linked() && Snap() == Added(old(Snap()), b)
    {
      hide Ring, Tiled, Flags, FreeSum, Remove, Distinct;
      At(i);
      TiledSize(Snap());
      AddedTiled(Snap(), i);
      FlagsAdded(used, cuts, free, b);
      FreeRingWith(nextFree, prevFree, free, b);
      used := used[b := false];
      var first := nextFree[HEAD];
      nextFree := nextFree[b := first];
      prevFree := prevFree[b := HEAD];
      prevFree := prevFree[first := b];
      nextFree := nextFree[HEAD := b];
      free := [b] + free;
    }

    /** Takes an item off the free ring. */
    method Unfree(b: int, ghost i: nat)
      requires Linked() && i < |cuts| - 1 && b == cuts[i] && b in free
      modifies this`nextFree, this`prevFree, this`used, this`free
      ensures Linked() && Snap() == Removed(old(Snap()), b)
      ensures forall x :: x in free <==> x in old(free) && x != b
    {
      hide Ring, Tiled, Flags, FreeSum, Remove, Distinct;
      At(i);
      TiledSize(Snap());
      RemovedTiled(Snap(), i);
      FreeDistinct();
      FlagsRemoved(used, cuts, free, b);
      FreeRingWithout(nextFree, prevFree, free, b);
      var behind, before := nextFree[b], prevFree[b];
      prevFree := prevFree[behind := before];
      nextFree := nextFree[before := behind];
      used := used[b := true];
      free := Lists.Remove(free, b);
    }

    /** Where an item lies in address order, and what its links say. */
    lemma Located(x: int) returns (i: nat)
      requires Linked() && x in cuts && x != cuts[|cuts| - 1]
      ensures i < |cuts| - 1 && cuts[i] == x && i == IndexOf(cuts, x)
      ensures x in next && x in prev && next[x] - x - ITEM == Payload(cuts, i) == SizeAt(cuts, x)
    {
      i := IndexOf(cuts, x);
      At(i);
    }

    /** The next item on the free ring. */
    lemma FreeAt(k: nat)
      requires Linked() && k <= |free|
      ensures ([HEAD] + free)[k] in nextFree
      ensures nextFree[([HEAD] + free)[k]] == if k < |free| then free[k] else HEAD
      ensures k < |free| ==> free[k] in cuts && free[k] != cuts[|cuts| - 1] && free[k] != HEAD
    {
      RingAt(nextFree, prevFree, [HEAD] + free, k);
      if k < |free| {
        assert free[k] in free;
        assert ([HEAD] + free)[k + 1] == free[k];
        assert ([HEAD] + free)[0] == HEAD;
      }
    }

    /** The search of `rt_memheap_alloc`, along the free ring. */
    method Search(size: nat) returns (header: int, freeSize: int, ghost k: nat)
      requires Linked() && size > 0
      ensures FirstFit(Snap(), size, k)
      ensures k <= |free| && (freeSize >= size <==> k < |free|)
      ensures k < |free| ==> header == free[k] && freeSize == SizeAt(cuts, header)
    {
      hide Ring, Tiled, Flags, Linked;
      FreeAt(0);
      header, freeSize, k := nextFree[HEAD], 0, 0;
      while header != HEAD && freeSize < size
        invariant k <= |free| && header == (if k < |free| then free[k] else HEAD)
        invariant forall j :: 0 <= j < k ==> free[j] in cuts && SizeAt(cuts, free[j]) < size
        invariant freeSize >= size ==> k < |free| && header in cuts && freeSize == SizeAt(cuts, header)
        decreases |free| - k, size - freeSize
      {
        FreeAt(k);
        ghost var i := Located(header);
        freeSize := next[header] - header - ITEM;
        if freeSize < size {
          FreeAt(k + 1);
          header := nextFree[header];
          k := k + 1;
        }
      }
      AllFreeCut();
      if k < |free| { FreeAt(k); }
    }

    lemma AllFreeCut()
      requires Linked()
      ensures forall j :: 0 <= j < |free| ==> free[j] in cuts
    {
      OnlyCutsFree(Snap());
      forall j | 0 <= j < |free| ensures free[j] in cuts {
        var x := free[j];
        assert x in Snap().free;
      }
    }

    /** The running maximum of what is not available. */
    method Charge(bytes: int)
      modifies this`available, this`maxUsed
      ensures available == old(available) - bytes
      ensures maxUsed == Max(old(maxUsed), poolSize - available)
    {
      available := available - bytes;
      if poolSize - available > maxUsed {
        maxUsed := poolSize - available;
      }
    }

    /**
     * `rt_memheap_alloc`: the first block on the free ring that is large enough, and none if all together are too
     * small.
     */
    method Alloc(request: nat) returns (ptr: Option<int>)
      requires Valid() && request < WORD
      modifies this
      ensures Valid()
      ensures ptr == None <==> NoRoom(old(Snap()), old(available), Aligned(request))
      ensures ptr == None <==>
        || Aligned(request) >= old(available)
        || forall i: nat :: i < |old(cuts)| - 1 && old(cuts)[i] in old(free) ==>
             old(cuts)[i + 1] - old(cuts)[i] - ITEM < Aligned(request)
      ensures ptr == None ==> Snap() == old(Snap()) && available == old(available) && maxUsed == old(maxUsed)
      ensures ptr.Some? ==> GainsAtLeast(old(Snap()), Snap(), ptr.value - ITEM, Aligned(request))
      ensures ptr.Some? ==> Serves(old(Snap()), Aligned(request), ptr.value - ITEM)
      ensures ptr.Some? ==>
        forall b, m :: b == ptr.value - ITEM && Holds(Snap(), b, m) ==>
          Aligned(request) <= m < Aligned(request) + ITEM + MINI
      ensures ptr.Some? ==> Snap() == Granted(old(Snap()), ptr.value - ITEM, Aligned(request))
      ensures ptr.Some? ==> maxUsed == Max(old(maxUsed), poolSize - available)
    {
      hide Tiled, Ring, Flags, FreeSum, Coalesced, Gains, FirstFit, Sound, Linked, Aligned, Holds, Allocated,
        MemHeap.Valid;
      var size := Aligned(request);
      ghost var s := Snap();
      SoundNow();
      NoneFits(s, size);
      if size >= available {
        return None;
      }
      var header, freeSize, k := Search(size);
      if freeSize < size {
        return None;
      }
      FreeAt(k);
      ghost var i := Located(header);
      AllocatedSound(s, i, size);
      AllocatedGains(s, i, size);
      NoMoreThan(s, i, size);
      FitsSome(s, size, k);
      TiledNow();
      NumberOf(s, i);
      Grant(header, freeSize, size, i);
      NowValid();
      ptr := Some(header + ITEM);
    }

    lemma NoMoreThan(s: State, i: nat, n: nat)
      requires Sound(s) && i < |s.cuts| - 1 && s.cuts[i] in s.free && n <= Payload(s.cuts, i) && n % 8 == 0
      ensures forall m :: Holds(Allocated(s, i, n), s.cuts[i], m) ==> n <= m < n + ITEM + MINI
    {
      hide Sound, Holds, Allocated;
      forall m | Holds(Allocated(s, i, n), s.cuts[i], m) ensures n <= m < n + ITEM + MINI { GrantedBytes(s, i, n, m); }
    }

    lemma SoundNow()
      requires Valid()
      ensures Sound(Snap()) && Linked() && available == FreeSum(Snap().cuts, Snap().free)
        && poolSize - available <= maxUsed
    {}

    lemma NowValid()
      requires Linked() && Sound(Snap()) && available == FreeSum(Snap().cuts, Snap().free)
        && poolSize - available <= maxUsed
      ensures Valid()
    {}

    lemma TiledNow()
      requires Linked()
      ensures Tiled(Snap())
    {}

    /** Takes a block off the free ring, after cutting off what the request leaves of it. */
    method Grant(header: int, freeSize: int, size: nat, ghost i: nat)
      requires Valid() && i < |cuts| - 1 && cuts[i] == header && header in free
      requires freeSize == Payload(cuts, i) && size <= freeSize && size % 8 == 0
      modifies this
      ensures Linked() && Snap() == Allocated(old(Snap()), i, size)
      ensures available == old(available) - if Splits(freeSize, size) then size + ITEM else freeSize
      ensures maxUsed == Max(old(maxUsed), poolSize - available)
    {
      hide Tiled, Ring, Flags, FreeSum, Coalesced, Remove, Inserted, Linked;
      ghost var s := Snap();
      Unfree(header, i);
      if freeSize >= size + ITEM + MINI {
        var at := header + ITEM + size;
        CutNumber(Snap(), i, at);
        TiledNow();
        OnlyCutsFree(Snap());
        Split(header, at, i);
        PushFree(at, i + 1);
        Charge(size + ITEM);
      } else {
        Charge(freeSize);
      }
    }

    /** A block in use, in address order. */
    lemma UsedBlock(b: int) returns (i: nat)
      requires Linked() && InUse(Snap(), b)
      ensures Used(Snap(), i) && cuts[i] == b && b in next && next[b] - b - ITEM == Payload(cuts, i) >= 0 && b in prev
      ensures next[b] in used && (!used[next[b]] <==> FreeBehind(Snap(), i)) && next[b] == cuts[i + 1]
      ensures prev[b] in used && (!used[prev[b]] <==> FreeBefore(Snap(), i)) && (i > 0 ==> prev[b] == cuts[i - 1])
      ensures FreeBehind(Snap(), i) ==> i + 2 < |cuts|
      ensures Block(Snap(), b) && i == IndexOf(cuts, b)
    {
      hide Linked, Tiled;
      TiledNow();
      var n :| Holds(Snap(), b, n);
      i :| i < |cuts| - 1 && cuts[i] == b && b !in free && Payload(cuts, i) == n;
      At(i);
      BehindUsed(i);
      BeforeUsed(i);
      NumberOf(Snap(), i);
    }

    /** What follows a block, which may be the tail. */
    lemma BehindUsed(i: nat)
      requires Linked() && i < |cuts| - 1
      ensures cuts[i] in next && next[cuts[i]] == cuts[i + 1] && cuts[i + 1] in used
      ensures !used[cuts[i + 1]] <==> FreeBehind(Snap(), i)
      ensures FreeBehind(Snap(), i) ==> i + 2 < |cuts|
    {
      hide Ring, Flags, Tiled;
      TiledNow();
      At(i);
      TiledSize(Snap());
    }

    /** What comes before a block: the used tail, for the first one. */
    lemma BeforeUsed(i: nat)
      requires Linked() && i < |cuts| - 1
      ensures cuts[i] in prev && prev[cuts[i]] in used && (i > 0 ==> prev[cuts[i]] == cuts[i - 1])
      ensures !used[prev[cuts[i]]] <==> FreeBefore(Snap(), i)
    {
      hide Ring, Flags, Tiled;
      TiledNow();
      At(i);
      At(|cuts| - 1);
      TiledSize(Snap());
    }

    /** `rt_memheap_free`; a null pointer is ignored. */
    method Free(ptr: Option<int>)
      requires Valid() && (ptr.Some? ==> InUse(Snap(), ptr.value - ITEM))
      modifies this
      ensures Valid() && maxUsed == old(maxUsed)
      ensures ptr == None ==> Snap() == old(Snap()) && available == old(available)
      ensures ptr.Some? ==> Loses(old(Snap()), Snap(), ptr.value - ITEM)
      ensures ptr.Some? ==> Snap() == Released(old(Snap()), ptr.value - ITEM)
    {
      hide Linked, Loses, InUse, Coalesced, FreeSum;
      if ptr.Some? {
        FreeBlock(ptr.value);
      }
    }

    /** A block in use is given back: free neighbours on either side and the block become one. */
    method FreeBlock(ptr: int)
      requires Valid() && InUse(Snap(), ptr - ITEM)
      modifies this
      ensures Valid() && Loses(old(Snap()), Snap(), ptr - ITEM) && maxUsed == old(maxUsed)
      ensures Snap() == Released(old(Snap()), ptr - ITEM)
    {
      hide Tiled, Ring, Flags, FreeSum, Coalesced, Holds, Loses, Joined, Absorbed, Linked;
      var b := ptr - ITEM;
      ghost var s := Snap();
      SoundNow();
      ghost var i := UsedBlock(b);
      FreedSound(s, i);
      FreedLoses(s, i);
      available := available + (next[b] - b - ITEM);
      var left, right := !used[prev[b]], !used[next[b]];
      if left {
        available := available + ITEM;
        var before := prev[b];
        JoinedCut(s, i - 1, i - 1);
        JoinedFree(s, i - 1);
        Join(before, i - 1);
        if right {
          JoinedCut(s, i - 1, i);
          TiledNow();
          available := available + ITEM;
          Absorb(before, i - 1);
        }
      } else {
        if right {
          available := available + ITEM;
          AbsorbedTiled(s, i);
          Absorb(b, i);
        }
        PushFree(b, i);
      }
      assert Snap() == Freed(s, i);
      NowValid();
    }

    /** Takes the free block behind `b` into it. */
    method Absorb(b: int, ghost i: nat)
      requires Linked() && i + 2 < |cuts| && b == cuts[i] && cuts[i + 1] in free
      modifies this`next, this`prev, this`nextFree, this`prevFree, this`used, this`cuts, this`free
      ensures Linked() && Snap() == Absorbed(old(Snap()), i)
    {
      hide Tiled, Ring, Flags, FreeSum, Remove, Linked;
      At(i);
      At(i + 1);
      var behind := next[b];
      Unfree(behind, i + 1);
      Join(b, i);
    }

    /** The free block behind a block in use. */
    lemma BlockBehind(i: nat)
      requires Linked() && i + 2 < |cuts|
      ensures cuts[i + 1] in next && next[cuts[i + 1]] - cuts[i + 1] - ITEM == Payload(cuts, i + 1) >= 0
    {
      At(i + 1);
    }

    /** A block in use grows into the free block behind it. */
    method Grow(b: int, size: nat, ghost i: nat)
      requires Linked() && Used(Snap(), i) && cuts[i] == b && FreeBehind(Snap(), i) && i + 2 < |cuts|
      requires size % 8 == 0 && b + ITEM + size + ITEM <= cuts[i + 2]
      modifies this`next, this`prev, this`nextFree, this`prevFree, this`used, this`cuts, this`free
      ensures Linked() && Snap() == Grown(old(Snap()), i, size)
    {
      hide Tiled, Ring, Flags, FreeSum, Linked, Absorbed;
      ghost var s := Snap();
      TiledNow();
      AbsorbedTiled(s, i);
      Absorb(b, i);
      CutNumber(Snap(), i, b + ITEM + size);
      OnlyCutsFree(Snap());
      Split(b, b + ITEM + size, i);
      PushFree(b + ITEM + size, i + 1);
    }

    /** A block in use gives its end back. */
    method Shrink(b: int, size: nat, ghost i: nat)
      requires Linked() && Used(Snap(), i) && cuts[i] == b && size % 8 == 0 && size + ITEM <= Payload(cuts, i)
      modifies this`next, this`prev, this`nextFree, this`prevFree, this`used, this`cuts, this`free, this`available
      ensures Linked() && Snap() == Shrunk(old(Snap()), i, size)
      ensures available
           == old(available) + Payload(old(cuts), i) - size - if FreeBehind(old(Snap()), i) then 0 else ITEM
    {
      hide Tiled, Ring, Flags, FreeSum, Linked, Absorbed, Inserted, Remove, Distinct, Cut, Added;
      ghost var s := Snap();
      var at := b + ITEM + size;
      TiledNow();
      UsedApart(s, i);
      OnlyCutsFree(s);
      CutNumber(s, i, at);
      CutParts(s, i, at);
      Split(b, at, i);
      At(i + 1);
      At(i + 2);
      if !used[next[at]] {
        TiledNow();
        TailUsed(Snap(), i + 2);
        BlockBehind(i + 1);
        var behind := next[at];
        available := available - (next[behind] - behind - ITEM);
        AbsorbedTiled(Snap(), i + 1);
        Absorb(at, i + 1);
      }
      PushFree(at, i + 1);
      At(i + 1);
      available := available + (next[at] - at - ITEM);
    }

    /**
     * `rt_memheap_realloc`: in place if possible; a block that has to move keeps its place until the new one is there.
     * The test for growing adds in 32 bits. When the sum wraps it holds of any free block behind, and the source cuts
     * at an address inside the header of the block itself (`WrappedCut`): that is `wrapped`, where the model stops.
     */
    method Realloc(ptr: Option<int>, request: nat) returns (result: Option<int>, wrapped: bool)
      requires Valid() && request < WORD && (ptr.Some? ==> InUse(Snap(), ptr.value - ITEM))
      modifies this
      ensures Valid()
      ensures wrapped <==> request > 0 && ptr.Some? && WrapsBehind(old(Snap()), ptr.value - ITEM, request)
      ensures wrapped ==> result == None
      ensures result == None && (wrapped || request > 0) ==> Snap() == old(Snap()) && maxUsed == old(maxUsed)
      ensures request == 0 ==> result == None && maxUsed == old(maxUsed)
      ensures request == 0 ==> Snap() == if ptr.Some? then Released(old(Snap()), ptr.value - ITEM) else old(Snap())
      ensures request == 0 && ptr.Some? ==> Loses(old(Snap()), Snap(), ptr.value - ITEM)
      ensures !wrapped && request > 0 ==>
        (result == None <==>
           !InPlace(old(Snap()), ptr, Aligned(request)) && NoRoom(old(Snap()), old(available), Aligned(request)))
      ensures !wrapped && request > 0 && result.Some? ==>
        if InPlace(old(Snap()), ptr, Aligned(request)) then
          && result == ptr && Snap() == Resized(old(Snap()), ptr.value - ITEM, Aligned(request))
          && ResizesAtLeast(old(Snap()), Snap(), ptr.value - ITEM, Aligned(request))
          && maxUsed == Max(old(maxUsed), poolSize - available)
        else
          && result != ptr && Serves(old(Snap()), Aligned(request), result.value - ITEM)
          && Snap() == MovedTo(old(Snap()), ptr, result.value - ITEM, Aligned(request))
          && maxUsed == Peak(old(maxUsed), poolSize, old(Snap()), result.value - ITEM, Aligned(request))
      ensures !wrapped && request > 0 && result.Some? && ptr == None ==>
        GainsAtLeast(old(Snap()), Snap(), result.value - ITEM, Aligned(request))
      ensures !wrapped && request > 0 && result.Some? && ptr.Some? && result != ptr ==>
        MovesAtLeast(old(Snap()), Snap(), ptr.value - ITEM, result.value - ITEM, Aligned(request))
    {
      hide Tiled, Ring, Flags, FreeSum, Coalesced, InUse, Linked, Aligned, Loses, Holds, Resizes, Gains, Granted,
        Released, FirstFit, Stays, WrapsBehind, Resized;
      wrapped := false;
      if request == 0 {
        Free(ptr);
        return None, false;
      }
      if ptr == None {
        AlignedTwice(request);
        result := Alloc(Aligned(request));
      } else {
        result, wrapped := Refit(ptr.value, request);
      }
    }

    /** A block in use gets another size, where it is or elsewhere. */
    method Refit(ptr: int, request: nat) returns (result: Option<int>, wrapped: bool)
      requires Valid() && 0 < request < WORD && InUse(Snap(), ptr - ITEM)
      modifies this
      ensures Valid() && (wrapped <==> WrapsBehind(old(Snap()), ptr - ITEM, request)) && (wrapped ==> result == None)
      ensures result == None ==> Snap() == old(Snap()) && maxUsed == old(maxUsed)
      ensures !wrapped ==>
        (result == None <==>
           !Stays(old(Snap()), ptr - ITEM, Aligned(request)) && NoRoom(old(Snap()), old(available), Aligned(request)))
      ensures !wrapped && Stays(old(Snap()), ptr - ITEM, Aligned(request)) ==>
        && result == Some(ptr) && Snap() == Resized(old(Snap()), ptr - ITEM, Aligned(request))
        && ResizesAtLeast(old(Snap()), Snap(), ptr - ITEM, Aligned(request))
        && maxUsed == Max(old(maxUsed), poolSize - available)
      ensures !wrapped && result.Some? && !Stays(old(Snap()), ptr - ITEM, Aligned(request)) ==>
        && result != Some(ptr) && Serves(old(Snap()), Aligned(request), result.value - ITEM)
        && Snap() == Released(Granted(old(Snap()), result.value - ITEM, Aligned(request)), ptr - ITEM)
        && maxUsed == Peak(old(maxUsed), poolSize, old(Snap()), result.value - ITEM, Aligned(request))
        && MovesAtLeast(old(Snap()), Snap(), ptr - ITEM, result.value - ITEM, Aligned(request))
    {
      hide Tiled, Ring, Flags, FreeSum, Coalesced, InUse, Linked, Aligned, Loses, Holds, Resizes, Grown, Shrunk,
        GainsAtLeast, MovesAtLeast, Granted, Released, FirstFit, Stays, WrapsBehind, Resized;
      var size, b := Aligned(request), ptr - ITEM;
      AlignedTwice(request);
      ghost var s := Snap();
      SoundNow();
      ghost var i := UsedBlock(b);
      RoomBehind(s, i, request);
      var oldSize := next[b] - b - ITEM;
      if size > oldSize {
        var behind := next[b];
        if !used[behind] {
          BlockBehind(i);
          var nextSize := next[behind] - behind - ITEM;
          if nextSize + oldSize > (size + MINI) % WORD {
            if size + MINI >= WORD {
              return None, true;
            }
            GrownSound(s, i, size);
            GrownResizes(s, i, size);
            Grow(b, size, i);
            Charge(size - oldSize);
            NowValid();
            return Some(ptr), false;
          }
        }
        wrapped := false;
        result := Alloc(size);
        if result.Some? {
          ghost var t := Snap();
          StillInUse(s, t, b, result.value - ITEM, size);
          Free(Some(ptr));
          Moved(s, t, Snap(), b, result.value - ITEM, size);
        }
        return;
      }
      if size + ITEM + MINI >= oldSize {
        Untouched(s, i, size);
        return Some(ptr), false;
      }
      ShrunkSound(s, i, size);
      ShrunkResizes(s, i, size);
      Shrink(b, size, i);
      NowValid();
      result, wrapped := Some(ptr), false;
    }
  }

  /** A fresh heap refuses a request for all of its free bytes, though its one free block holds them. */
  method AllFreeRefused(size: nat) returns (heap: MemHeap, ptr: Option<int>)
    requires size < WORD && size / 8 * 8 >= 2 * ITEM + MINI
    ensures ptr == None && heap.available == size / 8 * 8 - 2 * ITEM && Aligned(heap.available) == heap.available
    ensures heap.free == [0] && Block(heap.Snap(), 0) && SizeAt(heap.cuts, 0) == heap.available
  {
    heap := new MemHeap(size);
    AlignedAll(heap.available);
    ptr := heap.Alloc(heap.available);
  }

  lemma AlignedAll(n: nat)
    requires n % 8 == 0 && MINI <= n < WORD
    ensures Aligned(n) == n
  {}

  lemma SmallGranted()
    ensures !NoRoom(State([0, 1000], [0]), 976, 16)
    ensures Granted(State([0, 1000], [0]), 0, 16) == State([0, 40, 1000], [40])
    ensures Aligned(16) == 16 && Aligned(WORD - 16) == WORD - 16
  {
    assert Inserted([0, 1000], 0, 40) == [0, 40, 1000];
    assert Remove([0], 0) == [];
  }

  lemma SmallInUse(s: State)
    requires s == State([0, 40, 1000], [40])
    ensures InUse(s, 0) && WrapsBehind(s, 0, WORD - 16)
  {
    assert s.cuts[0] == 0 && Payload(s.cuts, 0) == 16;
    assert Holds(s, 0, 16);
  }

  /** On a heap with one block in use and free bytes behind it, growing to the top of a word wraps. */
  method GrowingWraps() returns (wrapped: bool)
    ensures wrapped
  {
    hide MemHeap.Linked, MemHeap.Valid, Coalesced, Holds, Gains, Inserted, Remove;
    var heap := new MemHeap(1024);
    SmallGranted();
    var ptr := heap.Alloc(16);
    SmallInUse(heap.Snap());
    var result;
    result, wrapped := heap.Realloc(ptr, WORD - 16);
  }

  lemma OnlyCutsFree(s: State)
    requires Tiled(s)
    ensures forall x :: x in s.free ==> x in s.cuts
  {}

  lemma CutParts(s: State, i: nat, at: int)
    requires i < |s.cuts| - 1
    ensures |Cut(s, i, at).cuts| == |s.cuts| + 1
    ensures Cut(s, i, at).cuts[i] == s.cuts[i] && Cut(s, i, at).cuts[i + 1] == at
      && Cut(s, i, at).cuts[i + 2] == s.cuts[i + 1]
    ensures i + 2 < |s.cuts| ==> Cut(s, i, at).cuts[i + 3] == s.cuts[i + 2]
  {
    InsertedAt(s.cuts, i, at, i);
    InsertedAt(s.cuts, i, at, i + 1);
    InsertedAt(s.cuts, i, at, i + 2);
    if i + 2 < |s.cuts| { InsertedAt(s.cuts, i, at, i + 3); }
  }

  lemma AlignedTwice(request: nat)
    requires request < WORD
    ensures Aligned(request) < WORD && Aligned(Aligned(request)) == Aligned(request)
  {}

  lemma FitsSome(s: State, n: nat, k: nat)
    requires FirstFit(s, n, k) && k < |s.free|
    ensures !FirstFit(s, n, |s.free|)
  {}

  /** The second part of a block that is cut comes right behind the first, and is not on the free ring. */
  lemma CutNumber(s: State, i: nat, at: int)
    requires i < |s.cuts|
    ensures |Cut(s, i, at).cuts| == |s.cuts| + 1 && Cut(s, i, at).cuts[i + 1] == at && Cut(s, i, at).free == s.free
  {
    InsertedAt(s.cuts, i, at, if i + 1 <= |s.cuts| then i + 1 else 0);
  }
}
