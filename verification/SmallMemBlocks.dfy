/** The small-memory heap seen as the sequence of blocks that its headers describe. */
module SmallMemBlocks {
  import opened Common

  const HEADER: nat := 16        // SIZEOF_STRUCT_MEM
  const MIN_SIZE: nat := 12
  const MIN_SIZE_ALIGNED: nat := 16

  /** One item: where its header lies and whether its payload is free. */
  datatype Block = Block(at: nat, free: bool)

  /** Rounding up fails for exactly the sizes within one alignment step of the end of the address space. */
  lemma RoundingWraps(size: nat)
    requires size < WORD
    ensures size <= Rounded(size) <==> size + RT_ALIGN_SIZE - 1 < WORD
    ensures size + RT_ALIGN_SIZE - 1 >= WORD ==> Rounded(size) == 0
  {}

  ghost predicate Aligned(x: nat) {
    x % RT_ALIGN_SIZE == 0
  }

  /** `n` bytes would serve a request for `size`, whose rounding up may wrap. */
  ghost predicate Covers(n: nat, size: nat) {
    Aligned(n) && n >= MIN_SIZE_ALIGNED && (size + RT_ALIGN_SIZE - 1 < WORD ==> n >= size)
  }

  ghost predicate LeastCover(n: nat, size: nat) {
    Covers(n, size) && forall m: nat :: Covers(m, size) ==> n <= m
  }

  lemma AlignedSum(a: nat, b: nat)
    requires Aligned(a) && Aligned(b)
    ensures Aligned(a + HEADER + b)
  {}

  /** Blocks lie head to tail from 0 to the end marker at `end`; a used one has a payload. */
  ghost predicate Tiled(bs: seq<Block>, end: nat) {
    && |bs| >= 2 && bs[0].at == 0
    && bs[|bs| - 1] == Block(end, false)
    && (forall i :: 0 <= i < |bs| ==> Aligned(bs[i].at))
    && (forall i :: 0 <= i < |bs| - 1 ==> bs[i].at + Room(bs[i]) <= bs[i + 1].at)
  }

  ghost function Room(b: Block): nat {
    if b.free then HEADER else HEADER + RT_ALIGN_SIZE
  }

  ghost predicate Coalesced(bs: seq<Block>) {
    forall i :: 0 <= i < |bs| - 1 ==> !(bs[i].free && bs[i + 1].free)
  }

  ghost predicate CoalescedExcept(bs: seq<Block>, k: nat) {
    forall i :: 0 <= i < |bs| - 1 && i != k && i + 1 != k ==> !(bs[i].free && bs[i + 1].free)
  }

  ghost predicate Canonical(bs: seq<Block>, end: nat) {
    Tiled(bs, end) && Coalesced(bs)
  }

  lemma Ascending(bs: seq<Block>, end: nat, i: nat, j: nat)
    requires Tiled(bs, end) && i < j < |bs|
    ensures bs[i].at + Room(bs[i]) <= bs[j].at
    decreases j
  {
    if i < j - 1 { Ascending(bs, end, i, j - 1); }
  }

  lemma SameAddress(bs: seq<Block>, end: nat, i: nat, j: nat)
    requires Tiled(bs, end) && i < |bs| && j < |bs| && bs[i].at == bs[j].at
    ensures i == j
  {
    if i < j { Ascending(bs, end, i, j); }
    if j < i { Ascending(bs, end, j, i); }
  }

  ghost function Payload(bs: seq<Block>, i: nat): int
    requires i + 1 < |bs|
  {
    bs[i + 1].at - bs[i].at - HEADER
  }

  /** `i` is the lowest free block, or the end marker when there is none. */
  ghost predicate LowestFree(bs: seq<Block>, i: nat) {
    i < |bs| && (i == |bs| - 1 || bs[i].free) && forall j :: 0 <= j < i ==> !bs[j].free
  }

  // ---- The elementary changes ----

  ghost function Mark(bs: seq<Block>, i: nat, free: bool): seq<Block>
    requires i < |bs|
  {
    bs[i := Block(bs[i].at, free)]
  }

  /** A free block appears at address `at`, inside block `i`. */
  ghost function Split(bs: seq<Block>, i: nat, at: nat): seq<Block>
    requires i < |bs|
  {
    bs[..i + 1] + [Block(at, true)] + bs[i + 1..]
  }

  /** Block `i` swallows its successor. */
  ghost function Merge(bs: seq<Block>, i: nat): seq<Block>
    requires i + 1 < |bs|
  {
    bs[..i + 1] + bs[i + 2..]
  }

  /** `plug_holes` at block `i`. */
  ghost function Plugged(bs: seq<Block>, i: nat): (r: seq<Block>)
    requires i < |bs|
  {
    PluggedBack(PluggedFront(bs, i), i)
  }

  ghost function PluggedFront(bs: seq<Block>, i: nat): (r: seq<Block>)
    requires i < |bs|
    ensures i < |r|
  {
    if i + 2 < |bs| && bs[i + 1].free then Merge(bs, i) else bs
  }

  ghost function PluggedBack(bs: seq<Block>, i: nat): seq<Block>
    requires i < |bs|
  {
    if 0 < i && bs[i - 1].free then Merge(bs, i - 1) else bs
  }

  // ---- What the operations do to the blocks ----

  ghost function Allocated(bs: seq<Block>, i: nat, size: nat): seq<Block>
    requires i + 1 < |bs|
  {
    if Payload(bs, i) >= size + HEADER + MIN_SIZE_ALIGNED
    then Mark(Split(bs, i, bs[i].at + HEADER + size), i, false)
    else Mark(bs, i, false)
  }

  ghost function Freed(bs: seq<Block>, i: nat): seq<Block>
    requires i < |bs|
  {
    Plugged(Mark(bs, i, true), i)
  }

  ghost function Shrunk(bs: seq<Block>, i: nat, size: nat): seq<Block>
    requires i < |bs|
  {
    Plugged(Split(bs, i, bs[i].at + HEADER + size), i + 1)
  }

  /** The first block, by address, that is free and large enough. */
  ghost predicate FirstFit(bs: seq<Block>, i: nat, size: nat) {
    && i + 1 < |bs| && bs[i].free && Payload(bs, i) >= size
    && forall j :: 0 <= j < i ==> !(bs[j].free && Payload(bs, j) >= size)
  }

  /**
   * Block `i`, the first that holds `n`, is in use now. A free block of the rest is behind it if that can be a block
   * with the least payload; else the whole block is given away.
   */
  ghost predicate Gets(bs: seq<Block>, cs: seq<Block>, i: nat, n: nat) {
    && i + 1 < |bs| && i + 1 < |cs| && bs[i].free && Payload(bs, i) >= n
    && (forall j :: 0 <= j < i && bs[j].free ==> Payload(bs, j) < n)
    && n <= Payload(cs, i) < n + HEADER + MIN_SIZE_ALIGNED
    && cs == bs[..i] + [Block(bs[i].at, false)]
             + (if Payload(bs, i) < n + HEADER + MIN_SIZE_ALIGNED then [] else [Block(bs[i].at + HEADER + n, true)])
             + bs[i + 1..]
  }

  lemma GetsFirst(bs: seq<Block>, i: nat, n: nat)
    requires FirstFit(bs, i, n)
    ensures Gets(bs, Allocated(bs, i, n), i, n)
  {
    var cs := Allocated(bs, i, n);
    if Payload(bs, i) >= n + HEADER + MIN_SIZE_ALIGNED {
      assert cs == bs[..i] + [Block(bs[i].at, false)] + [Block(bs[i].at + HEADER + n, true)] + bs[i + 1..];
    } else {
      assert cs == bs[..i] + [Block(bs[i].at, false)] + [] + bs[i + 1..];
    }
  }

  ghost predicate NoFit(bs: seq<Block>, size: nat) {
    forall j :: 0 <= j < |bs| - 1 ==> !(bs[j].free && Payload(bs, j) >= size)
  }

  // ---- Tiling is kept ----

  lemma SplitAt(bs: seq<Block>, i: nat, at: nat)
    requires i < |bs|
    ensures |Split(bs, i, at)| == |bs| + 1
    ensures forall k {:trigger Split(bs, i, at)[k]} :: 0 <= k < |bs| + 1 ==>
              Split(bs, i, at)[k] == if k <= i then bs[k] else if k == i + 1 then Block(at, true) else bs[k - 1]
  {}

  lemma MergeAt(bs: seq<Block>, i: nat)
    requires i + 1 < |bs|
    ensures |Merge(bs, i)| == |bs| - 1
    ensures forall k {:trigger Merge(bs, i)[k]} :: 0 <= k < |bs| - 1 ==>
      Merge(bs, i)[k] == if k <= i then bs[k] else bs[k + 1]
  {}

  lemma MarkTiled(bs: seq<Block>, end: nat, i: nat, free: bool)
    requires Tiled(bs, end) && i < |bs| - 1
    requires free || bs[i].at + HEADER + RT_ALIGN_SIZE <= bs[i + 1].at
    ensures Tiled(Mark(bs, i, free), end)
  {
    hide Aligned;
  }

  lemma SplitTiled(bs: seq<Block>, end: nat, i: nat, at: nat)
    requires Tiled(bs, end) && i < |bs| - 1 && Aligned(at)
    requires bs[i].at + HEADER + RT_ALIGN_SIZE <= at && at + HEADER <= bs[i + 1].at
    ensures Tiled(Split(bs, i, at), end)
  {
    hide Aligned, Split;
    SplitAt(bs, i, at);
    var r := Split(bs, i, at);
    assert r[0] == bs[0] && r[|r| - 1] == bs[|bs| - 1];
    forall k | 0 <= k < |r| - 1 ensures r[k].at + Room(r[k]) <= r[k + 1].at {
      if k > i + 1 { assert r[k] == bs[k - 1] && r[k + 1] == bs[(k - 1) + 1]; }
    }
  }

  lemma MergeTiled(bs: seq<Block>, end: nat, i: nat)
    requires Tiled(bs, end) && i + 2 < |bs|
    ensures Tiled(Merge(bs, i), end)
  {
    hide Aligned, Merge;
    MergeAt(bs, i);
    var r := Merge(bs, i);
    assert r[0] == bs[0] && r[|r| - 1] == bs[|bs| - 1];
    forall k | 0 <= k < |r| - 1 ensures r[k].at + Room(r[k]) <= r[k + 1].at {
      if k == i {
        assert r[k] == bs[i] && r[k + 1] == bs[(i + 1) + 1];
        assert bs[i].at + Room(bs[i]) <= bs[i + 1].at;
      } else if k > i {
        assert r[k] == bs[k + 1] && r[k + 1] == bs[(k + 1) + 1];
      }
    }
  }

  lemma PluggedFrontCanonical(bs: seq<Block>, end: nat, i: nat)
    requires Tiled(bs, end) && i < |bs| - 1 && bs[i].free && CoalescedExcept(bs, i)
    ensures var f := PluggedFront(bs, i);
      && Tiled(f, end) && i < |f| - 1 && f[i].free && (0 < i ==> f[i - 1] == bs[i - 1])
      && CoalescedAfter(f, i)
  {
    hide Aligned, Merge, Tiled;
    LastBlock(bs, end);
    var f := PluggedFront(bs, i);
    if i + 2 < |bs| && bs[i + 1].free {
      MergeTiled(bs, end, i);
      MergeAt(bs, i);
      forall k | 0 <= k < |f| - 1 && k + 1 != i ensures !(f[k].free && f[k + 1].free) {
        if k < i { assert f[k] == bs[k] && f[k + 1] == bs[k + 1]; }
        else { assert f[k + 1] == bs[(k + 1) + 1] && !(bs[k + 1].free && bs[(k + 1) + 1].free); }
      }
    } else {
      forall k | 0 <= k < |f| - 1 && k + 1 != i ensures !(f[k].free && f[k + 1].free) {
        if k != i { assert !(bs[k].free && bs[k + 1].free); }
      }
    }
  }

  ghost predicate CoalescedAfter(bs: seq<Block>, i: nat) {
    forall k :: 0 <= k < |bs| - 1 && k + 1 != i ==> !(bs[k].free && bs[k + 1].free)
  }

  lemma LastBlock(bs: seq<Block>, end: nat)
    requires Tiled(bs, end)
    ensures |bs| >= 2 && bs[|bs| - 1] == Block(end, false)
  {}

  lemma PluggedCanonical(bs: seq<Block>, end: nat, i: nat)
    requires Tiled(bs, end) && i < |bs| - 1 && bs[i].free && CoalescedExcept(bs, i)
    ensures Canonical(Plugged(bs, i), end)
  {
    hide Aligned, Merge, Tiled, PluggedFront, CoalescedExcept;
    PluggedFrontCanonical(bs, end, i);
    var f := PluggedFront(bs, i);
    if 0 < i && f[i - 1].free {
      MergeTiled(f, end, i - 1);
      MergeAt(f, i - 1);
      var r := Merge(f, i - 1);
      forall k | 0 <= k < |r| - 1 ensures !(r[k].free && r[k + 1].free) {
        if k < i - 1 { assert r[k] == f[k] && r[k + 1] == f[k + 1]; }
        else { assert r[k + 1] == f[(k + 1) + 1] && !(f[k + 1].free && f[(k + 1) + 1].free); }
      }
    } else {
      forall k | 0 <= k < |f| - 1 ensures !(f[k].free && f[k + 1].free) {}
    }
  }

  lemma AllocatedCanonical(bs: seq<Block>, end: nat, i: nat, size: nat)
    requires Canonical(bs, end) && i + 1 < |bs| && bs[i].free && Payload(bs, i) >= size
    requires Aligned(size) && size >= MIN_SIZE_ALIGNED
    ensures Canonical(Allocated(bs, i, size), end)
    ensures |Allocated(bs, i, size)| > i + 1
    ensures Allocated(bs, i, size)[i] == Block(bs[i].at, false) && Payload(Allocated(bs, i, size), i) >= size
  {
    hide Aligned, Split, Tiled, Coalesced;
    if Payload(bs, i) >= size + HEADER + MIN_SIZE_ALIGNED {
      var at := bs[i].at + HEADER + size;
      BlockAligned(bs, end, i);
      AlignedSum(bs[i].at, size);
      SplitTiled(bs, end, i, at);
      SplitAt(bs, i, at);
      var r := Split(bs, i, at);
      MarkTiled(r, end, i, false);
      NextUsed(bs, i);
      MarkSplit(bs, i, at);
    } else {
      MarkTiled(bs, end, i, false);
      MarkUsed(bs, i);
    }
  }

  lemma BlockAligned(bs: seq<Block>, end: nat, i: nat)
    requires Tiled(bs, end) && i < |bs|
    ensures Aligned(bs[i].at)
  {}

  lemma NextUsed(bs: seq<Block>, i: nat)
    requires Coalesced(bs) && i < |bs| - 1
    ensures bs[i].free ==> !bs[i + 1].free
  {}

  lemma MarkUsed(bs: seq<Block>, i: nat)
    requires Coalesced(bs) && i < |bs|
    ensures Coalesced(Mark(bs, i, false))
  {}

  lemma MarkSplit(bs: seq<Block>, i: nat, at: nat)
    requires Coalesced(bs) && i < |bs| - 1 && !bs[i + 1].free
    ensures Coalesced(Mark(Split(bs, i, at), i, false))
  {
    hide Split;
    SplitAt(bs, i, at);
    var r := Mark(Split(bs, i, at), i, false);
    forall k | 0 <= k < |r| - 1 ensures !(r[k].free && r[k + 1].free) {
      if k > i + 1 { assert r[k] == bs[k - 1] && r[k + 1] == bs[(k - 1) + 1]; }
      else if k + 1 < i { assert r[k] == bs[k] && r[k + 1] == bs[k + 1]; }
    }
  }

  lemma FreedCanonical(bs: seq<Block>, end: nat, i: nat)
    requires Canonical(bs, end) && i < |bs| - 1
    ensures Canonical(Freed(bs, i), end)
  {
    hide Tiled, Plugged;
    MarkTiled(bs, end, i, true);
    PluggedCanonical(Mark(bs, i, true), end, i);
  }

  lemma ShrunkCanonical(bs: seq<Block>, end: nat, i: nat, size: nat)
    requires Canonical(bs, end) && i < |bs| - 1 && !bs[i].free
    requires Aligned(size) && 0 < size && size + HEADER + MIN_SIZE < Payload(bs, i)
    ensures Canonical(Shrunk(bs, i, size), end)
  {
    hide Aligned, Split, Plugged, Tiled, Coalesced, CoalescedExcept;
    var at := bs[i].at + HEADER + size;
    BlockAligned(bs, end, i);
    AlignedSum(bs[i].at, size);
    GapAligned(bs, end, i, size);
    SplitTiled(bs, end, i, at);
    SplitAt(bs, i, at);
    SplitUsed(bs, i, at);
    PluggedCanonical(Split(bs, i, at), end, i + 1);
  }

  lemma SplitUsed(bs: seq<Block>, i: nat, at: nat)
    requires Coalesced(bs) && i < |bs| - 1 && !bs[i].free
    ensures CoalescedExcept(Split(bs, i, at), i + 1)
  {}

  /** What a split leaves over is a multiple of the alignment. */
  lemma GapAligned(bs: seq<Block>, end: nat, i: nat, size: nat)
    requires Tiled(bs, end) && i < |bs| - 1
    requires Aligned(size) && size + HEADER + MIN_SIZE < Payload(bs, i)
    ensures bs[i].at + HEADER + size + HEADER + RT_ALIGN_SIZE <= bs[i + 1].at
  {
    assert Aligned(bs[i].at) && Aligned(bs[i + 1].at);
  }
}
